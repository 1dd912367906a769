/**
 * `prepareComponentCode` of src/extension.ts: four non-global
 * `String.prototype.replace` calls with the patterns `/selector:.*,/`,
 * `/templateUrl:.*,/`, `/styleUrls.*,/` and `/export class.*{/`, each applied
 * to the previous one's output.
 *
 * A pattern `key.*term` is described twice: declaratively (SpanMatches,
 * FirstMatch: what JavaScript's leftmost, greedy matching selects) and by the
 * search Find, which is proved to select exactly that span.
 */
module Rewriter {
  import opened Wrappers
  import opened Text

  /** Text that `.` can cover: no line terminator in it. */
  predicate OnOneLine(s: seq<char>)
  {
    forall i :: 0 <= i < |s| ==> !IsLineTerminator(s[i])
  }

  /** `key.*term` matches `s[p..e]`. */
  ghost predicate SpanMatches(s: seq<char>, key: seq<char>, term: char, p: int, e: int)
  {
    && 0 <= p && p + |key| < e <= |s|
    && s[p..p + |key|] == key
    && s[e - 1] == term
    && OnOneLine(s[p + |key|..e - 1])
  }

  /**
   * The span a non-global `replace` rewrites: the leftmost start at which the
   * pattern matches at all, and from there the longest span, because `.*` is
   * greedy and backs off only as far as the last `term` on that line.
   */
  ghost predicate FirstMatch(s: seq<char>, key: seq<char>, term: char, p: int, e: int)
  {
    && SpanMatches(s, key, term, p, e)
    && (forall e' :: SpanMatches(s, key, term, p, e') ==> e' <= e)
    && (forall p', e' :: 0 <= p' < p ==> !SpanMatches(s, key, term, p', e'))
  }

  /** The index of the first line terminator at or after `i`, or `|s|`. */
  function LineEnd(s: seq<char>, i: nat): (j: nat)
    requires i <= |s|
    ensures i <= j <= |s| && OnOneLine(s[i..j])
    ensures j < |s| ==> IsLineTerminator(s[j])
    decreases |s| - i
  {
    if i == |s| || IsLineTerminator(s[i]) then i
    else
      var j := LineEnd(s, i + 1);
      assert s[i..j] == [s[i]] + s[i + 1..j];
      j
  }

  /** The end of the longest span `key.*term` starting at `p`, if any. */
  function LongestSpanAt(s: seq<char>, key: seq<char>, term: char, p: nat): (r: Option<nat>)
    requires p <= |s| && !IsLineTerminator(term)
    ensures r.Some? ==> SpanMatches(s, key, term, p, r.value)
    ensures r.Some? ==> forall e :: SpanMatches(s, key, term, p, e) ==> e <= r.value
    ensures r.None? ==> forall e :: !SpanMatches(s, key, term, p, e)
  {
    if p + |key| >= |s| || s[p..p + |key|] != key then None
    else
      var from := p + |key|;
      var stop := LineEnd(s, from);
      var line := s[from..stop];
      match LastIndexOf(line, term)
      case None =>
        assert forall e :: !SpanMatches(s, key, term, p, e) by {
          forall e | SpanMatches(s, key, term, p, e) ensures false {
            SpanEndsOnLine(s, key, term, p, e, stop);
          }
        }
        None
      case Some(k) =>
        assert forall i :: 0 <= i < k ==> s[from..from + k][i] == line[..k][i];
        assert s[from..from + k] == line[..k];
        assert forall e :: SpanMatches(s, key, term, p, e) ==> e <= from + k + 1 by {
          forall e | SpanMatches(s, key, term, p, e) ensures e <= from + k + 1 {
            SpanEndsOnLine(s, key, term, p, e, stop);
          }
        }
        Some(from + k + 1)
  }

  /** A span's terminator lies before the end of the line the span starts on. */
  lemma SpanEndsOnLine(s: seq<char>, key: seq<char>, term: char, p: nat, e: int, stop: nat)
    requires !IsLineTerminator(term)
    requires SpanMatches(s, key, term, p, e)
    requires p + |key| <= stop <= |s| && OnOneLine(s[p + |key|..stop])
    requires stop < |s| ==> IsLineTerminator(s[stop])
    ensures e - 1 < stop
  {
  }

  /** The leftmost start at or after `p` with its longest span. */
  function FindFrom(s: seq<char>, key: seq<char>, term: char, p: nat): (r: Option<(nat, nat)>)
    requires p <= |s| && !IsLineTerminator(term)
    ensures r.Some? ==> p <= r.value.0 && SpanMatches(s, key, term, r.value.0, r.value.1)
    ensures r.Some? ==> forall e :: SpanMatches(s, key, term, r.value.0, e) ==> e <= r.value.1
    ensures r.Some? ==> forall q, e :: p <= q < r.value.0 ==> !SpanMatches(s, key, term, q, e)
    ensures r.None? ==> forall q, e :: p <= q ==> !SpanMatches(s, key, term, q, e)
    decreases |s| - p
  {
    if p == |s| then None
    else
      match LongestSpanAt(s, key, term, p)
      case Some(e) => Some((p, e))
      case None => FindFrom(s, key, term, p + 1)
  }

  /** The span a non-global `replace` with `key.*term` rewrites, or None when it matches nowhere. */
  function Find(s: seq<char>, key: seq<char>, term: char): (r: Option<(nat, nat)>)
    requires !IsLineTerminator(term)
    ensures r.Some? ==> FirstMatch(s, key, term, r.value.0, r.value.1)
    ensures r.None? <==> forall p, e :: !SpanMatches(s, key, term, p, e)
  {
    FindFrom(s, key, term, 0)
  }

  /**
   * The replacement string as `replace` reads it: `$$` is `$`, `$&` the
   * matched text, `` $` `` the text before it, `$'` the text after it; any
   * other `$` stands for itself (the patterns have no capture groups).
   */
  function Expand(t: seq<char>, matched: seq<char>, before: seq<char>, after: seq<char>): seq<char>
    decreases |t|
  {
    if |t| == 0 then []
    else if t[0] == '$' && |t| >= 2 then
      if t[1] == '$' then "$" + Expand(t[2..], matched, before, after)
      else if t[1] == '&' then matched + Expand(t[2..], matched, before, after)
      else if t[1] == '`' then before + Expand(t[2..], matched, before, after)
      else if t[1] == '\'' then after + Expand(t[2..], matched, before, after)
      else "$" + Expand(t[1..], matched, before, after)
    else [t[0]] + Expand(t[1..], matched, before, after)
  }

  /** A replacement without `$` is inserted literally. */
  lemma {:induction false} ExpandLiteral(t: seq<char>, matched: seq<char>, before: seq<char>, after: seq<char>)
    requires '$' !in t
    ensures Expand(t, matched, before, after) == t
    decreases |t|
  {
    if |t| > 0 {
      assert '$' !in t[1..];
      ExpandLiteral(t[1..], matched, before, after);
      assert t == [t[0]] + t[1..];
    }
  }

  /** `s.replace(/key.*term/, repl)`. */
  function ReplaceFirst(s: seq<char>, key: seq<char>, term: char, repl: seq<char>): seq<char>
    requires !IsLineTerminator(term)
  {
    match Find(s, key, term)
    case None => s
    case Some((p, e)) => s[..p] + Expand(repl, s[p..e], s[..p], s[e..]) + s[e..]
  }

  /**
   * The first match is replaced by the expanded `repl`, the text around it is
   * kept byte for byte, and without a match the text comes back unchanged.
   */
  lemma ReplaceFirstSpec(s: seq<char>, key: seq<char>, term: char, repl: seq<char>)
    requires !IsLineTerminator(term)
    ensures (forall p, e :: !SpanMatches(s, key, term, p, e)) ==> ReplaceFirst(s, key, term, repl) == s
    ensures forall p, e :: FirstMatch(s, key, term, p, e) ==>
      ReplaceFirst(s, key, term, repl) == s[..p] + Expand(repl, s[p..e], s[..p], s[e..]) + s[e..]
  {
    match Find(s, key, term)
    case None =>
    case Some((p, e)) =>
      assert forall p', e' :: FirstMatch(s, key, term, p', e') ==> p' == p && e' == e;
  }

  /** The values written into the copied component (src/extension.ts:29-33). */
  datatype Options = Options(selector: string, templateUrl: string, styleUrl: string, className: string)

  function SelectorLine(v: string): string { "selector: '" + v + "'," }

  function TemplateUrlLine(v: string): string { "templateUrl: '" + v + "'," }

  function StyleUrlsLine(v: string): string { "styleUrls: ['" + v + "']," }

  function ClassLine(v: string): string { "export class " + v + " {" }

  /** The four replacements of `prepareComponentCode`, in their order. */
  function PrepareComponentCode(classStr: string, o: Options): string
  {
    var s1 := ReplaceFirst(classStr, "selector:", ',', SelectorLine(o.selector));
    var s2 := ReplaceFirst(s1, "templateUrl:", ',', TemplateUrlLine(o.templateUrl));
    var s3 := ReplaceFirst(s2, "styleUrls", ',', StyleUrlsLine(o.styleUrl));
    ReplaceFirst(s3, "export class", '{', ClassLine(o.className + "Component"))
  }

  /** A source in which none of the four patterns matches comes back unchanged. */
  lemma PrepareSkipsMissingFields(classStr: string, o: Options)
    requires forall p, e :: !SpanMatches(classStr, "selector:", ',', p, e)
    requires forall p, e :: !SpanMatches(classStr, "templateUrl:", ',', p, e)
    requires forall p, e :: !SpanMatches(classStr, "styleUrls", ',', p, e)
    requires forall p, e :: !SpanMatches(classStr, "export class", '{', p, e)
    ensures PrepareComponentCode(classStr, o) == classStr
  {
    ReplaceFirstSpec(classStr, "selector:", ',', SelectorLine(o.selector));
    ReplaceFirstSpec(classStr, "templateUrl:", ',', TemplateUrlLine(o.templateUrl));
    ReplaceFirstSpec(classStr, "styleUrls", ',', StyleUrlsLine(o.styleUrl));
    ReplaceFirstSpec(classStr, "export class", '{', ClassLine(o.className + "Component"));
  }

  /** `g` occurs in `s` starting at index `q`. */
  ghost predicate OccursAt(s: seq<char>, g: seq<char>, q: int)
  {
    0 <= q && q + |g| <= |s| && s[q..q + |g|] == g
  }

  /** `g` occurs nowhere in `s`. */
  ghost predicate FreeOf(s: seq<char>, g: seq<char>)
  {
    forall q :: !OccursAt(s, g, q)
  }

  /** A text lacking some character of `g` does not contain `g`. */
  lemma FreeOfMissingChar(s: seq<char>, g: seq<char>, c: char)
    requires c in g && c !in s
    ensures FreeOf(s, g)
  {
    var k :| 0 <= k < |g| && g[k] == c;
    forall q | 0 <= q && q + |g| <= |s| ensures !OccursAt(s, g, q) {
      assert s[q..q + |g|][k] == s[q + k];
    }
  }

  /**
   * Two texts without `g` joined at a character that is not in `g` (the
   * last of `x` or the first of `y`) do not contain `g` either.
   */
  lemma FreeOfJoin(x: seq<char>, y: seq<char>, g: seq<char>)
    requires FreeOf(x, g) && FreeOf(y, g)
    requires (|x| > 0 && x[|x| - 1] !in g) || (|y| > 0 && y[0] !in g)
    ensures FreeOf(x + y, g)
  {
    var s := x + y;
    forall q | 0 <= q && q + |g| <= |s| ensures !OccursAt(s, g, q) {
      if q + |g| <= |x| {
        assert s[q..q + |g|] == x[q..q + |g|];
        assert !OccursAt(x, g, q);
      } else if q >= |x| {
        assert s[q..q + |g|] == y[q - |x|..q - |x| + |g|];
        assert !OccursAt(y, g, q - |x|);
      } else if |x| > 0 && x[|x| - 1] !in g {
        var k := |x| - 1 - q;
        assert s[q..q + |g|][k] == x[|x| - 1] && g[k] != x[|x| - 1];
      } else {
        var k := |x| - q;
        assert s[q..q + |g|][k] == y[0] && g[k] != y[0];
      }
    }
  }

  /**
   * No match can start inside `pre` when `key` does not occur in `pre`
   * followed by all of `key` but its last character.
   */
  lemma NoMatchInPrefix(pre: seq<char>, key: seq<char>, rest: seq<char>, term: char)
    requires |key| > 0 && FreeOf(pre + key[..|key| - 1], key)
    ensures forall p, e :: 0 <= p < |pre| ==> !SpanMatches(pre + key + rest, key, term, p, e)
  {
    var s, t := pre + key + rest, pre + key[..|key| - 1];
    forall p | 0 <= p < |pre| ensures !OccursAt(s, key, p) {
      if p + |key| <= |s| {
        assert s[p..p + |key|] == t[p..p + |key|];
        assert !OccursAt(t, key, p);
      }
    }
    forall p, e | 0 <= p < |pre| ensures !SpanMatches(s, key, term, p, e) {
      assert !OccursAt(s, key, p);
    }
  }

  /**
   * When `key`, a single line's worth of text and `term` follow a prefix in
   * which no match starts, and a line break (or the end) follows `term`, the
   * replacement rewrites exactly that span.
   */
  lemma ReplaceOnLine(pre: seq<char>, key: seq<char>, mid: seq<char>, term: char, post: seq<char>, repl: seq<char>)
    requires !IsLineTerminator(term) && OnOneLine(mid) && OnOneLine(key)
    requires |post| == 0 || IsLineTerminator(post[0])
    requires forall p, e :: 0 <= p < |pre| ==> !SpanMatches(pre + key + mid + [term] + post, key, term, p, e)
    requires '$' !in repl
    ensures ReplaceFirst(pre + key + mid + [term] + post, key, term, repl) == pre + repl + post
  {
    var s := pre + key + mid + [term] + post;
    var p0, e0 := |pre|, |pre| + |key| + |mid| + 1;
    FieldIsFirstMatch(pre, key, mid, term, post);
    ReplaceFirstSpec(s, key, term, repl);
    ExpandLiteral(repl, s[p0..e0], s[..p0], s[e0..]);
    assert s[..p0] == pre && s[e0..] == post;
  }

  /** Under the conditions of `ReplaceOnLine`, the field's span is the first match. */
  lemma FieldIsFirstMatch(pre: seq<char>, key: seq<char>, mid: seq<char>, term: char, post: seq<char>)
    requires !IsLineTerminator(term) && OnOneLine(mid) && OnOneLine(key)
    requires |post| == 0 || IsLineTerminator(post[0])
    requires forall p, e :: 0 <= p < |pre| ==> !SpanMatches(pre + key + mid + [term] + post, key, term, p, e)
    ensures FirstMatch(pre + key + mid + [term] + post, key, term, |pre|, |pre| + |key| + |mid| + 1)
  {
    var s := pre + key + mid + [term] + post;
    var p0, e0 := |pre|, |pre| + |key| + |mid| + 1;
    assert s[p0..p0 + |key|] == key;
    assert s[p0 + |key|..e0 - 1] == mid;
    assert SpanMatches(s, key, term, p0, e0);
    assert s[p0 + |key|..e0] == mid + [term];
    forall e | SpanMatches(s, key, term, p0, e) ensures e <= e0 {
      SpanEndsOnLine(s, key, term, p0, e, e0);
    }
  }

  /** A component source: the decorator with the four fields, then the class declaration. */
  function Decorator(selector: string, templateUrl: string, styleUrl: string, className: string): string
  {
    "@Component({\n  " + SelectorLine(selector) + "\n  " + TemplateUrlLine(templateUrl) + "\n  "
    + StyleUrlsLine(styleUrl) + "\n})\n" + ClassLine(className) + "\n}\n"
  }

  /**
   * One field of a component source: `key`, the rest of the field on one
   * line and `term`, then a line break. No match starts before it when
   * `key` does not occur earlier; it is then the span `replace` rewrites.
   */
  lemma ReplaceField(pre: seq<char>, key: seq<char>, mid: seq<char>, term: char, post: seq<char>,
                     repl: seq<char>)
    requires !IsLineTerminator(term) && OnOneLine(mid) && OnOneLine(key)
    requires |post| > 0 && IsLineTerminator(post[0])
    requires |key| > 0 && FreeOf(pre + key[..|key| - 1], key)
    requires '$' !in repl
    ensures ReplaceFirst(pre + key + mid + [term] + post, key, term, repl) == pre + repl + post
  {
    NoMatchInPrefix(pre, key, mid + [term] + post, term);
    assert pre + key + (mid + [term] + post) == pre + key + mid + [term] + post;
    ReplaceOnLine(pre, key, mid, term, post, repl);
  }

  /** The `selector:` line is rewritten when that text does not occur before it. */
  lemma ReplaceSelectorLine(pre: string, was: string, post: string, v: string)
    requires FreeOf(pre + "selector", "selector:") && OnOneLine(was) && '$' !in v
    requires |post| > 0 && IsLineTerminator(post[0])
    ensures ReplaceFirst(pre + SelectorLine(was) + post, "selector:", ',', SelectorLine(v))
         == pre + SelectorLine(v) + post
  {
    var mid := " '" + was + "'";
    assert pre + SelectorLine(was) + post == pre + "selector:" + mid + [','] + post;
    assert "selector:"[..8] == "selector";
    ReplaceField(pre, "selector:", mid, ',', post, SelectorLine(v));
  }

  /** The `templateUrl:` line is rewritten when that text does not occur before it. */
  lemma ReplaceTemplateUrlLine(pre: string, was: string, post: string, v: string)
    requires FreeOf(pre + "templateUrl", "templateUrl:") && OnOneLine(was) && '$' !in v
    requires |post| > 0 && IsLineTerminator(post[0])
    ensures ReplaceFirst(pre + TemplateUrlLine(was) + post, "templateUrl:", ',', TemplateUrlLine(v))
         == pre + TemplateUrlLine(v) + post
  {
    var mid := " '" + was + "'";
    assert pre + TemplateUrlLine(was) + post == pre + "templateUrl:" + mid + [','] + post;
    assert "templateUrl:"[..11] == "templateUrl";
    ReplaceField(pre, "templateUrl:", mid, ',', post, TemplateUrlLine(v));
  }

  /** The `styleUrls` line is rewritten when that text does not occur before it. */
  lemma ReplaceStyleUrlsLine(pre: string, was: string, post: string, v: string)
    requires FreeOf(pre + "styleUrl", "styleUrls") && OnOneLine(was) && '$' !in v
    requires |post| > 0 && IsLineTerminator(post[0])
    ensures ReplaceFirst(pre + StyleUrlsLine(was) + post, "styleUrls", ',', StyleUrlsLine(v))
         == pre + StyleUrlsLine(v) + post
  {
    var mid := ": ['" + was + "']";
    assert pre + StyleUrlsLine(was) + post == pre + "styleUrls" + mid + [','] + post;
    assert "styleUrls"[..8] == "styleUrl";
    ReplaceField(pre, "styleUrls", mid, ',', post, StyleUrlsLine(v));
  }

  /** The `export class` line is rewritten when that text does not occur before it. */
  lemma ReplaceClassLine(pre: string, was: string, post: string, v: string)
    requires FreeOf(pre + "export clas", "export class") && OnOneLine(was) && '$' !in v
    requires |post| > 0 && IsLineTerminator(post[0])
    ensures ReplaceFirst(pre + ClassLine(was) + post, "export class", '{', ClassLine(v))
         == pre + ClassLine(v) + post
  {
    var mid := " " + was + " ";
    assert pre + ClassLine(was) + post == pre + "export class" + mid + ['{'] + post;
    assert "export class"[..11] == "export clas";
    ReplaceField(pre, "export class", mid, '{', post, ClassLine(v));
  }

  /**
   * The four replacements on a source whose field lines come in the order
   * selector, template, styles, class, separated by text `gap1`, `gap2`,
   * `close` and `end` that each start a new line (other decorator fields
   * may sit in `head`, `gap1`, `gap2` and `close`).
   */
  lemma PrepareRewritesFieldLines(head: string, gap1: string, gap2: string, close: string, end: string,
                                  sel0: string, tpl0: string, sty0: string, cls0: string,
                                  v1: string, v2: string, v3: string, v4: string)
    requires |gap1| > 0 && IsLineTerminator(gap1[0]) && |gap2| > 0 && IsLineTerminator(gap2[0])
    requires |close| > 0 && IsLineTerminator(close[0]) && |end| > 0 && IsLineTerminator(end[0])
    requires OnOneLine(sel0) && OnOneLine(tpl0) && OnOneLine(sty0) && OnOneLine(cls0)
    requires '$' !in v1 && '$' !in v2 && '$' !in v3 && '$' !in v4
    requires FreeOf(head + "selector", "selector:")
    requires FreeOf(head + SelectorLine(v1) + gap1 + "templateUrl", "templateUrl:")
    requires FreeOf(head + SelectorLine(v1) + gap1 + TemplateUrlLine(v2) + gap2 + "styleUrl", "styleUrls")
    requires FreeOf(head + SelectorLine(v1) + gap1 + TemplateUrlLine(v2) + gap2 + StyleUrlsLine(v3) + close
                    + "export clas", "export class")
    ensures PrepareComponentCode(head + SelectorLine(sel0) + gap1 + TemplateUrlLine(tpl0) + gap2
                                 + StyleUrlsLine(sty0) + close + ClassLine(cls0) + end,
                                 Options(v1, v2, v3, v4))
         == head + SelectorLine(v1) + gap1 + TemplateUrlLine(v2) + gap2
            + StyleUrlsLine(v3) + close + ClassLine(v4 + "Component") + end
  {
    var src := head + SelectorLine(sel0) + gap1 + TemplateUrlLine(tpl0) + gap2
               + StyleUrlsLine(sty0) + close + ClassLine(cls0) + end;
    var rest := StyleUrlsLine(sty0) + (close + ClassLine(cls0) + end);
    var p3 := head + SelectorLine(v1) + gap1 + TemplateUrlLine(v2) + gap2;
    var out := p3 + StyleUrlsLine(v3) + close + ClassLine(v4 + "Component") + end;
    Regroup(head, SelectorLine(sel0), gap1, TemplateUrlLine(tpl0), gap2, StyleUrlsLine(sty0), close,
            ClassLine(cls0), end);
    RewriteSelectorAndTemplateUrl(head, gap1, gap2, rest, sel0, tpl0, v1, v2);
    RegroupAfterTwo(head, SelectorLine(v1), gap1, TemplateUrlLine(v2), gap2, StyleUrlsLine(sty0),
                    close + ClassLine(cls0) + end);
    RewriteStyleUrlsAndClass(p3, close, end, sty0, cls0, v3, v4 + "Component");
    PrepareInTwoHalves(src, Options(v1, v2, v3, v4), p3 + StyleUrlsLine(sty0) + (close + ClassLine(cls0) + end), out);
  }

  /** The source as the first two field lines and what follows them. */
  lemma Regroup(a: string, b: string, c: string, d: string, e: string, f: string, g: string, h: string, i: string)
    ensures a + b + c + d + e + f + g + h + i == a + b + (c + d + (e + (f + (g + h + i))))
  {
  }

  /** The text after the first two replacements, as the prefix before the style line and the rest. */
  lemma RegroupAfterTwo(a: string, b: string, c: string, d: string, e: string, f: string, g: string)
    ensures a + b + c + d + (e + (f + g)) == a + b + c + d + e + f + g
  {
  }

  /** `prepareComponentCode` is the first two replacements followed by the last two. */
  lemma PrepareInTwoHalves(src: string, o: Options, mid: string, out: string)
    requires ReplaceFirst(ReplaceFirst(src, "selector:", ',', SelectorLine(o.selector)),
                          "templateUrl:", ',', TemplateUrlLine(o.templateUrl)) == mid
    requires ReplaceFirst(ReplaceFirst(mid, "styleUrls", ',', StyleUrlsLine(o.styleUrl)),
                          "export class", '{', ClassLine(o.className + "Component")) == out
    ensures PrepareComponentCode(src, o) == out
  {
  }

  /** The first two replacements, on the selector and template lines. */
  lemma RewriteSelectorAndTemplateUrl(head: string, gap1: string, gap2: string, rest: string,
                                      sel0: string, tpl0: string, v1: string, v2: string)
    requires |gap1| > 0 && IsLineTerminator(gap1[0]) && |gap2| > 0 && IsLineTerminator(gap2[0])
    requires OnOneLine(sel0) && OnOneLine(tpl0) && '$' !in v1 && '$' !in v2
    requires FreeOf(head + "selector", "selector:")
    requires FreeOf(head + SelectorLine(v1) + gap1 + "templateUrl", "templateUrl:")
    ensures ReplaceFirst(ReplaceFirst(head + SelectorLine(sel0) + (gap1 + TemplateUrlLine(tpl0) + (gap2 + rest)),
                                      "selector:", ',', SelectorLine(v1)),
                         "templateUrl:", ',', TemplateUrlLine(v2))
         == head + SelectorLine(v1) + gap1 + TemplateUrlLine(v2) + (gap2 + rest)
  {
    var p2, t2 := head + SelectorLine(v1) + gap1, gap2 + rest;
    var t1 := gap1 + TemplateUrlLine(tpl0) + t2;
    ReplaceSelectorLine(head, sel0, t1, v1);
    assert head + SelectorLine(v1) + t1 == p2 + TemplateUrlLine(tpl0) + t2;
    ReplaceTemplateUrlLine(p2, tpl0, t2, v2);
  }

  /** The last two replacements, on the style and class lines. */
  lemma RewriteStyleUrlsAndClass(pre: string, close: string, end: string,
                                 sty0: string, cls0: string, v3: string, v4: string)
    requires |close| > 0 && IsLineTerminator(close[0]) && |end| > 0 && IsLineTerminator(end[0])
    requires OnOneLine(sty0) && OnOneLine(cls0) && '$' !in v3 && '$' !in v4
    requires FreeOf(pre + "styleUrl", "styleUrls")
    requires FreeOf(pre + StyleUrlsLine(v3) + close + "export clas", "export class")
    ensures ReplaceFirst(ReplaceFirst(pre + StyleUrlsLine(sty0) + (close + ClassLine(cls0) + end),
                                      "styleUrls", ',', StyleUrlsLine(v3)),
                         "export class", '{', ClassLine(v4))
         == pre + StyleUrlsLine(v3) + close + ClassLine(v4) + end
  {
    var p4 := pre + StyleUrlsLine(v3) + close;
    ReplaceStyleUrlsLine(pre, sty0, close + ClassLine(cls0) + end, v3);
    assert pre + StyleUrlsLine(v3) + (close + ClassLine(cls0) + end) == p4 + ClassLine(cls0) + end;
    ReplaceClassLine(p4, cls0, end, v4);
  }

  /** The decorator's text around its first value, regrouped at the quotes. */
  lemma AroundOne(a: string, b: string, v: string, c: string, d: string, e: string)
    ensures a + (b + v + c) + d + e == (a + b) + v + (c + d + e)
  {
  }

  /** The decorator's text around its first two values, regrouped at the quotes. */
  lemma AroundTwo(a: string, b: string, v: string, c: string, d: string, e: string, w: string, f: string,
                  d2: string, h: string)
    ensures a + (b + v + c) + d + (e + w + f) + d2 + h == (a + b) + v + (c + d + e) + w + (f + d2 + h)
  {
  }

  /** The decorator's text around its three values, regrouped at the quotes. */
  lemma AroundThree(a: string, b: string, v1: string, c: string, d: string, e: string, v2: string, f: string,
                    d2: string, h: string, v3: string, i: string, j: string, k: string)
    ensures a + (b + v1 + c) + d + (e + v2 + f) + d2 + (h + v3 + i) + j + k
         == (a + b) + v1 + (c + d + e) + v2 + (f + d2 + h) + v3 + (i + j + k)
  {
  }

  /**
   * `x + v + y` does not contain `g` when none of the three does and the
   * quotes that end `x` and start `y` are not in `g`.
   */
  lemma FreeOfQuoted(x: string, v: string, y: string, g: string)
    requires FreeOf(x, g) && FreeOf(v, g) && FreeOf(y, g) && '\'' !in g
    requires |x| > 0 && x[|x| - 1] == '\'' && |y| > 0 && y[0] == '\''
    ensures FreeOf(x + v + y, g)
  {
    FreeOfJoin(x, v, g);
    FreeOfJoin(x + v, y, g);
  }

  /** In a decorator, `templateUrl:` does not occur before the template line when the selector holds none. */
  lemma BeforeTemplateUrlLine(selector: string)
    requires FreeOf(selector, "templateUrl:")
    ensures FreeOf("@Component({\n  " + SelectorLine(selector) + "\n  " + "templateUrl", "templateUrl:")
  {
    var x, y := "@Component({\n  " + "selector: '", "'," + "\n  " + "templateUrl";
    FreeOfMissingChar(x, "templateUrl:", 'U');
    FreeOfMissingChar(y, "templateUrl:", ':');
    FreeOfQuoted(x, selector, y, "templateUrl:");
    AroundOne("@Component({\n  ", "selector: '", selector, "',", "\n  ", "templateUrl");
  }

  /** In a decorator, `styleUrls` does not occur before the style line when the first two values hold none. */
  lemma BeforeStyleUrlsLine(selector: string, templateUrl: string)
    requires FreeOf(selector, "styleUrls") && FreeOf(templateUrl, "styleUrls")
    ensures FreeOf("@Component({\n  " + SelectorLine(selector) + "\n  " + TemplateUrlLine(templateUrl) + "\n  "
                   + "styleUrl", "styleUrls")
  {
    var g := "styleUrls";
    var x, y, z := "@Component({\n  " + "selector: '", "'," + "\n  " + "templateUrl: '", "'," + "\n  " + "styleUrl";
    FreeOfMissingChar(x, g, 'y');
    FreeOfMissingChar(y, g, 'y');
    FreeOfJoin("'," + "\n  ", "styleUrl", g);
    FreeOfQuoted(x, selector, y, g);
    FreeOfQuoted(x + selector + y, templateUrl, z, g);
    AroundTwo("@Component({\n  ", "selector: '", selector, "',", "\n  ", "templateUrl: '", templateUrl, "',",
              "\n  ", "styleUrl");
  }

  /** The decorator's literal text before the class line does not contain `export class`. */
  lemma ClassKeyAbsentFromLiterals()
    ensures FreeOf("@Component({\n  " + "selector: '", "export class")
    ensures FreeOf("'," + "\n  " + "templateUrl: '", "export class")
    ensures FreeOf("'," + "\n  " + "styleUrls: ['", "export class")
    ensures FreeOf("']," + "\n})\n" + "export clas", "export class")
  {
    FreeOfMissingChar("@Component({\n  " + "selector: '", "export class", 'x');
    FreeOfMissingChar("'," + "\n  " + "templateUrl: '", "export class", 'x');
    ClassKeyAbsentAfterStyles();
  }

  /** The literal text around the style line does not contain `export class`. */
  lemma ClassKeyAbsentAfterStyles()
    ensures FreeOf("'," + "\n  " + "styleUrls: ['", "export class")
    ensures FreeOf("']," + "\n})\n" + "export clas", "export class")
  {
    FreeOfMissingChar("'," + "\n  " + "styleUrls: ['", "export class", 'x');
    FreeOfJoin("']," + "\n})\n", "export clas", "export class");
  }

  /** In a decorator, `export class` does not occur before the class line when the three values hold none. */
  lemma BeforeClassLine(selector: string, templateUrl: string, styleUrl: string)
    requires FreeOf(selector, "export class") && FreeOf(templateUrl, "export class") && FreeOf(styleUrl, "export class")
    ensures FreeOf("@Component({\n  " + SelectorLine(selector) + "\n  " + TemplateUrlLine(templateUrl) + "\n  "
                   + StyleUrlsLine(styleUrl) + "\n})\n" + "export clas", "export class")
  {
    var g := "export class";
    var x, y := "@Component({\n  " + "selector: '", "'," + "\n  " + "templateUrl: '";
    var z, w := "'," + "\n  " + "styleUrls: ['", "']," + "\n})\n" + "export clas";
    ClassKeyAbsentFromLiterals();
    FreeOfQuoted(x, selector, y, g);
    FreeOfQuoted(x + selector + y, templateUrl, z, g);
    FreeOfQuoted(x + selector + y + templateUrl + z, styleUrl, w, g);
    AroundThree("@Component({\n  ", "selector: '", selector, "',", "\n  ", "templateUrl: '", templateUrl, "',",
                "\n  ", "styleUrls: ['", styleUrl, "'],", "\n})\n", "export clas");
  }

  /**
   * On a component source laid out one field per line, the four replacements
   * rewrite exactly the four field lines and keep every other line. The new
   * values must not contain `$` (which `replace` would expand) nor the text
   * of a later field's pattern, which would then be found first.
   */
  lemma PrepareRewritesDecorator(sel0: string, tpl0: string, sty0: string, cls0: string, o: Options)
    requires OnOneLine(sel0) && OnOneLine(tpl0) && OnOneLine(sty0) && OnOneLine(cls0)
    requires '$' !in o.selector && '$' !in o.templateUrl && '$' !in o.styleUrl && '$' !in o.className
    requires FreeOf(o.selector, "templateUrl:") && FreeOf(o.selector, "styleUrls") && FreeOf(o.selector, "export class")
    requires FreeOf(o.templateUrl, "styleUrls") && FreeOf(o.templateUrl, "export class")
    requires FreeOf(o.styleUrl, "export class")
    ensures PrepareComponentCode(Decorator(sel0, tpl0, sty0, cls0), o)
         == Decorator(o.selector, o.templateUrl, o.styleUrl, o.className + "Component")
  {
    FreeOfMissingChar("@Component({\n  " + "selector", "selector:", ':');
    BeforeTemplateUrlLine(o.selector);
    BeforeStyleUrlsLine(o.selector, o.templateUrl);
    BeforeClassLine(o.selector, o.templateUrl, o.styleUrl);
    PrepareRewritesFieldLines("@Component({\n  ", "\n  ", "\n  ", "\n})\n", "\n}\n", sel0, tpl0, sty0, cls0,
                              o.selector, o.templateUrl, o.styleUrl, o.className);
  }
}
