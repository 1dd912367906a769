/**
 * The two name transformers of src/extension.ts: `dasherize` (kebab case for
 * file names and the selector) and `classify` (Pascal case for the class name).
 */
module Names {
  import opened Text

  // ---------------------------------------------------------------- dasherize

  /**
   * What the replacement callback of `dasherize` yields for one character:
   * an ASCII capital becomes its lower-case letter, preceded by `-` unless it
   * stands at index 0 of the original string; every other character stays.
   */
  function DashChar(c: char, atStart: bool): seq<char>
  {
    if IsUpper(c) then (if atStart then [] else ['-']) + [Lower(c)] else [c]
  }

  /** `dasherize` applied to the characters at indices 1 and above. */
  function DashRest(t: seq<char>): seq<char>
  {
    if |t| == 0 then [] else DashChar(t[0], false) + DashRest(t[1..])
  }

  /** `str.replace(/[A-Z]/g, ...)` of `dasherize`. */
  function Dasherize(s: seq<char>): seq<char>
  {
    if |s| == 0 then [] else DashChar(s[0], true) + DashRest(s[1..])
  }

  predicate NoUpper(s: seq<char>)
  {
    forall i :: 0 <= i < |s| ==> !IsUpper(s[i])
  }

  /** The number of ASCII capitals in `t`. */
  function CountUpper(t: seq<char>): nat
  {
    if |t| == 0 then 0 else (if IsUpper(t[0]) then 1 else 0) + CountUpper(t[1..])
  }

  lemma {:induction false} DashRestNoUpper(t: seq<char>)
    ensures NoUpper(DashRest(t))
  {
    if t != [] {
      DashRestNoUpper(t[1..]);
      assert DashRest(t) == DashChar(t[0], false) + DashRest(t[1..]);
    }
  }

  /** No ASCII capital survives `dasherize`. */
  lemma DasherizeNoUpper(s: seq<char>)
    ensures NoUpper(Dasherize(s))
  {
    if s != [] {
      DashRestNoUpper(s[1..]);
    }
  }

  lemma {:induction false} DashRestOfLower(t: seq<char>)
    requires NoUpper(t)
    ensures DashRest(t) == t
  {
    if t != [] {
      DashRestOfLower(t[1..]);
      assert t == [t[0]] + t[1..];
    }
  }

  /** `dasherize` fixes exactly the strings without ASCII capitals. */
  lemma DasherizeFixedPoints(s: seq<char>)
    ensures Dasherize(s) == s <==> NoUpper(s)
  {
    DasherizeNoUpper(s);
    if NoUpper(s) && s != [] {
      DashRestOfLower(s[1..]);
      assert s == [s[0]] + s[1..];
    }
  }

  /** Dasherizing a second time changes nothing. */
  lemma DasherizeIdempotent(s: seq<char>)
    ensures Dasherize(Dasherize(s)) == Dasherize(s)
  {
    DasherizeNoUpper(s);
    DasherizeFixedPoints(Dasherize(s));
  }

  lemma {:induction false} DashRestLength(t: seq<char>)
    ensures |DashRest(t)| == |t| + CountUpper(t)
  {
    if t != [] {
      DashRestLength(t[1..]);
    }
  }

  /**
   * One `-` is inserted per capital after index 0 and none for index 0:
   * the result is as long as the input plus the capitals in `s[1..]`.
   */
  lemma DasherizeLength(s: seq<char>)
    ensures |Dasherize(s)| == |s| + (if |s| == 0 then 0 else CountUpper(s[1..]))
  {
    if s != [] {
      DashRestLength(s[1..]);
    }
  }

  /** Past the first character, `dasherize` works piece by piece. */
  lemma {:induction false} DashRestAppend(a: seq<char>, b: seq<char>)
    ensures DashRest(a + b) == DashRest(a) + DashRest(b)
  {
    if |a| > 0 {
      DashRestAppend(a[1..], b);
      assert (a + b)[1..] == a[1..] + b;
    } else {
      assert a + b == b;
    }
  }

  /** A name split after its first character dasherizes as its two parts. */
  lemma DasherizeAppend(a: seq<char>, b: seq<char>)
    requires |a| > 0
    ensures Dasherize(a + b) == Dasherize(a) + DashRest(b)
  {
    assert (a + b)[1..] == a[1..] + b;
    DashRestAppend(a[1..], b);
  }

  lemma DasherizeExample()
    ensures Dasherize("FooBar") == "foo-bar"
  {
    assert "FooBar" == "Foo" + "Bar";
    DasherizeAppend("Foo", "Bar");
    assert Dasherize("Foo") == "foo";
    assert DashRest("Bar") == "-bar";
  }

  // ----------------------------------------------------------------- classify

  /** The class `[-_\s]` of `classify`. */
  predicate IsSeparator(c: char)
  {
    c == '-' || c == '_' || IsWhitespace(c)
  }

  predicate NoSeparator(s: seq<char>)
  {
    forall i :: 0 <= i < |s| ==> !IsSeparator(s[i])
  }

  predicate AllSeparators(s: seq<char>)
  {
    forall i :: 0 <= i < |s| ==> IsSeparator(s[i])
  }

  /**
   * `.replace(/^./, ...)`: the first character upper-cased. A line terminator,
   * which `.` does not match, has no upper case, so mapping it changes nothing.
   */
  function UpperFirst(s: seq<char>): seq<char>
  {
    if |s| == 0 then [] else [Upper(s[0])] + s[1..]
  }

  /**
   * `.replace(/[-_\s]+(.)?/g, ...)` scanning text outside a separator run:
   * plain characters are kept, a separator opens a run.
   */
  function Camelize(t: seq<char>): seq<char>
    decreases |t|, 1
  {
    if |t| == 0 then []
    else if IsSeparator(t[0]) then CamelizeRun(t[1..])
    else [t[0]] + Camelize(t[1..])
  }

  /**
   * The same scan inside a run: the greedy `[-_\s]+` swallows further
   * separators; the first other character is the `(.)` and comes out
   * upper-cased; a run that reaches the end of the string yields nothing.
   * The character after a maximal run is never a line terminator (those
   * belong to `\s`), so `(.)` always takes it.
   */
  function CamelizeRun(t: seq<char>): seq<char>
    decreases |t|, 0
  {
    if |t| == 0 then []
    else if IsSeparator(t[0]) then CamelizeRun(t[1..])
    else [Upper(t[0])] + Camelize(t[1..])
  }

  /** `classify`: the two replacements in sequence. */
  function Classify(s: seq<char>): seq<char>
  {
    Camelize(UpperFirst(s))
  }

  lemma {:induction false} CamelizeNoSeparator(t: seq<char>)
    ensures NoSeparator(Camelize(t)) && NoSeparator(CamelizeRun(t))
    decreases |t|
  {
    if |t| > 0 {
      CamelizeNoSeparator(t[1..]);
    }
  }

  /** No `-`, `_` or white space is left in a classified name. */
  lemma ClassifyNoSeparator(s: seq<char>)
    ensures NoSeparator(Classify(s))
  {
    CamelizeNoSeparator(UpperFirst(s));
  }

  lemma {:induction false} CamelizeDropsTrailingRun(t: seq<char>, run: seq<char>)
    requires AllSeparators(run)
    ensures Camelize(t + run) == Camelize(t) && CamelizeRun(t + run) == CamelizeRun(t)
    decreases |t|
  {
    if |t| == 0 {
      assert t + run == run;
      CamelizeOfRun(run);
    } else {
      assert (t + run)[1..] == t[1..] + run;
      CamelizeDropsTrailingRun(t[1..], run);
    }
  }

  lemma {:induction false} CamelizeOfRun(run: seq<char>)
    requires AllSeparators(run)
    ensures Camelize(run) == [] && CamelizeRun(run) == []
  {
    if |run| > 0 {
      CamelizeOfRun(run[1..]);
    }
  }

  /**
   * The run replacement brings in no new character: each one in the result
   * is a character of `t` or the capital of a lower-case letter of `t`.
   */
  lemma {:induction false} CamelizeChars(t: seq<char>, c: char)
    ensures c in Camelize(t) ==> c in t || (IsUpper(c) && (c as int + 32) as char in t)
    ensures c in CamelizeRun(t) ==> c in t || (IsUpper(c) && (c as int + 32) as char in t)
    decreases |t|
  {
    if |t| > 0 {
      CamelizeChars(t[1..], c);
      assert t == [t[0]] + t[1..];
      if IsLower(t[0]) && c == Upper(t[0]) {
        assert (c as int + 32) as char == t[0];
      }
    }
  }

  /** So a character that is neither in `t` nor a capital does not appear. */
  lemma CamelizeOmits(t: seq<char>, c: char)
    requires c !in t && !IsUpper(c)
    ensures c !in Camelize(t) && c !in CamelizeRun(t)
  {
    CamelizeChars(t, c);
  }

  /**
   * `classify` brings in no character other than capitals: one that is not
   * a capital and not in the name is not in the class name either.
   */
  lemma ClassifyOmits(s: seq<char>, c: char)
    requires c !in s && !IsUpper(c)
    ensures c !in Classify(s)
  {
    if |s| > 0 {
      assert s == [s[0]] + s[1..];
    }
    CamelizeOmits(UpperFirst(s), c);
  }

  /** A separator run at the end of the name is dropped without trace. */
  lemma ClassifyDropsTrailingRun(s: seq<char>, run: seq<char>)
    requires AllSeparators(run)
    ensures Classify(s + run) == Classify(s)
  {
    if |s| == 0 {
      assert s + run == run;
      CamelizeOfRun(run);
      if |run| > 0 {
        assert UpperFirst(run) == run;
      }
    } else {
      assert UpperFirst(s + run) == UpperFirst(s) + run;
      CamelizeDropsTrailingRun(UpperFirst(s), run);
    }
  }

  lemma {:induction false} CamelizePlainPrefix(p: seq<char>, t: seq<char>)
    requires NoSeparator(p)
    ensures Camelize(p + t) == p + Camelize(t)
  {
    if |p| > 0 {
      assert (p + t)[1..] == p[1..] + t;
      CamelizePlainPrefix(p[1..], t);
      assert p == [p[0]] + p[1..];
    } else {
      assert p + t == t;
    }
  }

  /** A name without separators only has its first character upper-cased. */
  lemma ClassifyOfPlain(s: seq<char>)
    requires |s| > 0 && NoSeparator(s)
    ensures Classify(s) == [Upper(s[0])] + s[1..]
  {
    CamelizePlainPrefix(UpperFirst(s), []);
    assert UpperFirst(s) + [] == UpperFirst(s);
  }

  /** A `-` and the lowered capital after it camelize back to the capital. */
  lemma CamelizeDashedLetter(l: char, rest: seq<char>)
    requires !IsSeparator(l)
    ensures Camelize(['-', l] + rest) == [Upper(l)] + Camelize(rest)
  {
    assert (['-', l] + rest)[1..] == [l] + rest;
    assert ([l] + rest)[1..] == rest;
  }

  /**
   * Inside a run, the rest of the run and the character after it become
   * that character's capital, followed by the text after it camelized.
   */
  lemma {:induction false} CamelizeRunThen(r: seq<char>, c: char, t: seq<char>)
    requires AllSeparators(r) && !IsSeparator(c)
    ensures CamelizeRun(r + [c] + t) == [Upper(c)] + Camelize(t)
    decreases |r|
  {
    if |r| == 0 {
      assert r + [c] + t == [c] + t;
      assert ([c] + t)[1..] == t;
    } else {
      assert (r + [c] + t)[1..] == r[1..] + [c] + t;
      CamelizeRunThen(r[1..], c, t);
    }
  }

  /**
   * A word, then a non-empty run of separators of any kind, then a
   * character: the run disappears and the character is upper-cased.
   */
  lemma CamelizeSeparatedWord(p: seq<char>, r: seq<char>, c: char, t: seq<char>)
    requires NoSeparator(p) && |r| > 0 && AllSeparators(r) && !IsSeparator(c)
    ensures Camelize(p + r + [c] + t) == p + [Upper(c)] + Camelize(t)
  {
    assert p + r + [c] + t == p + (r + [c] + t);
    CamelizePlainPrefix(p, r + [c] + t);
    assert (r + [c] + t)[1..] == r[1..] + [c] + t;
    CamelizeRunThen(r[1..], c, t);
  }

  /** `classify("foo_ -bar baz") == "FooBarBaz"`: runs of mixed separators inside a name. */
  lemma ClassifyMixedRunsExample()
    ensures Classify("foo_ -bar baz") == "FooBarBaz"
  {
    MixedRunsFirstWord();
    MixedRunsRest();
  }

  /** The first word of the mixed-runs example, upper-cased, and the run after it. */
  lemma MixedRunsFirstWord()
    ensures Camelize(UpperFirst("foo_ -bar baz")) == "FooB" + Camelize("ar baz")
  {
    assert UpperFirst("foo_ -bar baz") == "Foo" + "_ -" + ['b'] + "ar baz";
    CamelizeSeparatedWord("Foo", "_ -", 'b', "ar baz");
    assert "Foo" + [Upper('b')] == "FooB";
  }

  /** The rest of the mixed-runs example: `ar baz` camelizes to `arBaz`, completing `FooBarBaz`. */
  lemma MixedRunsRest()
    ensures "FooB" + Camelize("ar baz") == "FooBarBaz"
  {
    assert "ar baz" == "ar" + " " + ['b'] + "az";
    CamelizeSeparatedWord("ar", " ", 'b', "az");
    CamelizePlainPrefix("az", []);
    assert "az" + [] == "az";
    assert "FooB" + ("ar" + [Upper('b')] + "az") == "FooBarBaz";
  }

  lemma {:induction false} CamelizeUndoesDashRest(t: seq<char>)
    requires NoSeparator(t)
    ensures Camelize(DashRest(t)) == t
  {
    if |t| > 0 {
      var c, rest := t[0], DashRest(t[1..]);
      CamelizeUndoesDashRest(t[1..]);
      if IsUpper(c) {
        assert DashRest(t) == ['-', Lower(c)] + rest;
        CamelizeDashedLetter(Lower(c), rest);
      } else {
        assert DashRest(t) == [c] + rest;
        assert ([c] + rest)[1..] == rest;
      }
      assert t == [c] + t[1..];
    }
  }

  /**
   * On a name without separators, `classify` undoes `dasherize`: the capitals
   * it lowered come back, and the first character comes out upper-cased.
   */
  lemma ClassifyUndoesDasherize(s: seq<char>)
    requires |s| > 0 && NoSeparator(s)
    ensures Classify(Dasherize(s)) == [Upper(s[0])] + s[1..]
    ensures Classify(Dasherize(s)) == Classify(s)
  {
    var rest := DashRest(s[1..]);
    var first := if IsUpper(s[0]) then Lower(s[0]) else s[0];
    assert Dasherize(s) == [first] + rest;
    assert UpperFirst(Dasherize(s)) == [Upper(s[0])] + rest;
    CamelizePlainPrefix([Upper(s[0])], rest);
    CamelizeUndoesDashRest(s[1..]);
    ClassifyOfPlain(s);
  }

  lemma ClassifyPlainExample()
    ensures Classify("foo") == "Foo"
  {
    ClassifyOfPlain("foo");
    assert [Upper('f')] + "oo" == "Foo";
  }

  lemma ClassifyExample()
    ensures Classify("foo-bar") == "FooBar"
  {
    assert UpperFirst("foo-bar") == "Foo-bar";
  }
}
