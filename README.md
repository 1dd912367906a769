# ng-g-comp: extract a selection into a new Angular component

The VS Code extension `ng-g-comp` has one command, `ng-g-comp.generate`.
While an Angular component's template is open, the user selects a piece of
it and enters a name. The command then creates a sibling component from
that selection:

- it makes the directory `<dir>/<dashed>`, where `<dashed>` is the name
  dasherized;
- it copies the open component's stylesheet (`<file>.scss`) to
  `<dashed>.component.scss`;
- it reads the open component's class (`<file>.ts`) and rewrites its
  `selector:`, `templateUrl:`, `styleUrls` and `export class` lines for the
  new name. The result goes to `<dashed>.component.ts`;
- it writes the selection to `<dashed>.component.html`.

The model is split into six modules:

- `Wrappers` holds the `Option` type.
- `Text` holds the ASCII case mapping, JavaScript's line-terminator and `\s` character classes, and `lastIndexOf`.
- `Names` models `dasherize` and `classify` as recursive functions. Their lemmas cover:
  - the output alphabet;
  - fixed points, idempotence and length;
  - dropping of trailing separators;
  - the fact that `classify` undoes `dasherize`.
- `Rewriter` models `prepareComponentCode`, built from `ReplaceFirst`, a model of a non-global `String.replace` with the patterns `key.*term`:
  - `Find` computes the match. It is proved equal to a declarative description: the leftmost start, then the greedy `.*` up to the last terminator on that line, where `.` excludes line terminators.
  - `Expand` handles the `$` patterns of the replacement string.
  - Lemmas show which line each of the four replacements rewrites, and that the rest of the text is unchanged.
- `Paths` models `split('.')`, `join('.')` and the file names the command derives.
- `Command` has two parts:
  - `Run`, a pure specification of the command on a `State` (files, created directories, writes in order, error messages), with lemmas about its guards, its success path and its failure without rollback;
  - the class `Workspace`, whose method `Generate` performs the same steps in place and is proved to end in the state `Run` describes.

## Model

| member | source | states |
|---|---|---|
| `Text.Upper` | src/extension.ts:14 | `toUpperCase` on ASCII: a lower-case letter becomes the capital 32 code points below it; every other character is kept; no result is a lower-case letter |
| `Text.Lower` | src/extension.ts:8 | `toLowerCase` on ASCII: a capital becomes the letter 32 code points above it; every other character is kept; no result is a capital |
| `Text.LastIndexOf` | src/extension.ts:21 | the last index holding `c`: None exactly when `c` does not occur, otherwise an index holding `c` with no `c` after it |
| `Names.Dasherize` | src/extension.ts:6-10 | `dasherize`: each capital becomes its lower-case letter, with a `-` before it except at index 0; its properties are the `Dasherize…` lemmas below |
| `Names.DasherizeNoUpper` | src/extension.ts:6-10 | `dasherize` leaves no capital A-Z |
| `Names.DashRestOfLower` | src/extension.ts:7-9 | away from index 0, text without capitals passes through unchanged |
| `Names.DasherizeFixedPoints` | src/extension.ts:6-10 | `dasherize(s) == s` exactly when `s` has no capital |
| `Names.DasherizeIdempotent` | src/extension.ts:6-10 | dasherizing twice is dasherizing once |
| `Names.DashRestLength` | src/extension.ts:7-9 | away from index 0, every capital adds exactly one `-` |
| `Names.DasherizeLength` | src/extension.ts:7-8 | the length grows by one `-` for each capital after index 0, and by none for a capital at index 0 |
| `Names.DashRestAppend` | src/extension.ts:7 | away from index 0, `dasherize` works piece by piece (the `g` flag replaces every capital independently) |
| `Names.DasherizeAppend` | src/extension.ts:7 | a name split after its first character dasherizes part by part |
| `Names.DasherizeExample` | src/extension.ts:6-10 | `dasherize("FooBar") == "foo-bar"` |
| `Names.Classify` | src/extension.ts:12-16 | `classify`: the first character upper-cased, then every separator run with the character after it replaced by that character's capital (`CamelizeRunThen`, `CamelizeSeparatedWord`), and a run at the end dropped (`ClassifyDropsTrailingRun`); its other properties are the `Classify…` and `Camelize…` lemmas below |
| `Names.CamelizeNoSeparator` | src/extension.ts:15 | the run replacement leaves no `-`, `_` or whitespace |
| `Names.ClassifyNoSeparator` | src/extension.ts:12-16 | `classify` output has no `-`, `_` or whitespace character |
| `Names.CamelizeDropsTrailingRun` | src/extension.ts:15 | a separator run at the end yields nothing, since `(.)?` captured nothing |
| `Names.CamelizeOfRun` | src/extension.ts:15 | text made only of separators disappears |
| `Names.CamelizeChars` | src/extension.ts:15 | every character the run replacement produces is one of the input's, or the capital of a lower-case letter of the input |
| `Names.CamelizeOmits` | src/extension.ts:15 | a character that is neither in the input nor a capital does not appear in the output |
| `Names.ClassifyOmits` | src/extension.ts:12-16 | a character that is not a capital and not in the name is not in its class name |
| `Names.ClassifyDropsTrailingRun` | src/extension.ts:12-16 | `classify(s + run) == classify(s)` for a run of separators |
| `Names.CamelizePlainPrefix` | src/extension.ts:15 | text without separators passes through the run replacement unchanged |
| `Names.ClassifyOfPlain` | src/extension.ts:12-16 | on a non-empty name without separators, `classify` only upper-cases the first character |
| `Names.CamelizeDashedLetter` | src/extension.ts:15 | `-x` becomes `X` |
| `Names.CamelizeRunThen` | src/extension.ts:15 | inside a run of `-`, `_` or white space, the rest of the run and the character after it become that character's capital, followed by the remaining text camelized |
| `Names.CamelizeSeparatedWord` | src/extension.ts:15 | a word without separators, a non-empty run of separators of any kind and a character become the word followed by that character's capital, then the rest camelized |
| `Names.ClassifyMixedRunsExample` | src/extension.ts:12-16 | `classify("foo_ -bar baz") == "FooBarBaz"` |
| `Names.CamelizeUndoesDashRest` | src/extension.ts:15 | the run replacement restores every capital that `dasherize` lowered after a `-` |
| `Names.ClassifyUndoesDasherize` | src/extension.ts:12-16 | on a name without separators, `classify(dasherize(s))` is `s` with its first character upper-cased, the same as `classify(s)` |
| `Names.ClassifyPlainExample` | src/extension.ts:12-16 | `classify("foo") == "Foo"` |
| `Names.ClassifyExample` | src/extension.ts:12-16 | `classify("foo-bar") == "FooBar"` |
| `Rewriter.Expand` | src/extension.ts:34-37 | the replacement string with `$$`, `$&`, `` $` `` and `$'` expanded as `String.replace` does; `ExpandLiteral` states that a `$`-free replacement is inserted as written |
| `Rewriter.ReplaceFirst` | src/extension.ts:34-37 | a non-global `replace` with the pattern `key.*term`; `ReplaceFirstSpec` states what it does |
| `Rewriter.PrepareComponentCode` | src/extension.ts:29-37 | `prepareComponentCode`: the four replacements in their order; the `PrepareRewrites…` and `PrepareSkipsMissingFields` lemmas state what it does |
| `Rewriter.LineEnd` | src/extension.ts:34 | the first line terminator at or after `i` (or the end), with no terminator before it |
| `Rewriter.LongestSpanAt` | src/extension.ts:34 | from a start, the longest `key.*term` span if any: it matches, every match from there ends no later, and None means no match starts there |
| `Rewriter.SpanEndsOnLine` | src/extension.ts:34 | a match's terminator lies on the line where the key stands |
| `Rewriter.FindFrom` | src/extension.ts:34-37 | the leftmost start at or after `p` where the pattern matches, with its longest span; None when no start from `p` on matches |
| `Rewriter.Find` | src/extension.ts:34-37 | the span `replace` rewrites is the first match; None exactly when the pattern matches nowhere |
| `Rewriter.ExpandLiteral` | src/extension.ts:34-37 | a replacement without `$` is inserted as it is |
| `Rewriter.ReplaceFirstSpec` | src/extension.ts:34-37 | without a match the text comes back unchanged; otherwise only the first match is replaced, and the text before and after it is kept |
| `Rewriter.PrepareSkipsMissingFields` | src/extension.ts:29-37 | a class file in which none of the four patterns matches comes back unchanged |
| `Rewriter.NoMatchInPrefix` | src/extension.ts:34-37 | no match starts in a prefix in which the key does not occur, even running on into the key itself |
| `Rewriter.FieldIsFirstMatch` | src/extension.ts:34-37 | a field line `key…term` that ends its line, with no match before it, is the span matched |
| `Rewriter.ReplaceOnLine` | src/extension.ts:34-37 | such a field line is replaced by the new text, and everything around it is kept |
| `Rewriter.ReplaceField` | src/extension.ts:34-37 | the same, when the key does not occur earlier |
| `Rewriter.ReplaceSelectorLine` | src/extension.ts:34 | the line `selector: '…',` becomes `selector: '<selector>',` |
| `Rewriter.ReplaceTemplateUrlLine` | src/extension.ts:35 | the line `templateUrl: '…',` becomes `templateUrl: '<templateUrl>',` |
| `Rewriter.ReplaceStyleUrlsLine` | src/extension.ts:36 | the line `styleUrls: ['…'],` becomes `styleUrls: ['<styleUrl>'],` |
| `Rewriter.ReplaceClassLine` | src/extension.ts:37 | the line `export class … {` becomes `export class <className> {` |
| `Rewriter.RewriteSelectorAndTemplateUrl` | src/extension.ts:34-35 | the first two replacements rewrite the selector and template lines and keep the rest |
| `Rewriter.RewriteStyleUrlsAndClass` | src/extension.ts:36-37 | the last two replacements rewrite the style and class lines and keep the rest |
| `Rewriter.PrepareRewritesFieldLines` | src/extension.ts:29-37 | on a class file whose selector, template, styles and class lines come in that order, each separated from the next by its own text starting a new line, exactly the four field lines are rewritten and the class name gains `Component` |
| `Rewriter.BeforeTemplateUrlLine` | src/extension.ts:35 | in a decorator, `templateUrl:` does not occur before the template line unless it occurs in the selector |
| `Rewriter.BeforeStyleUrlsLine` | src/extension.ts:36 | in a decorator, `styleUrls` does not occur before the style line unless it occurs in the selector or template URL |
| `Rewriter.BeforeClassLine` | src/extension.ts:37 | in a decorator, `export class` does not occur before the class line unless it occurs in one of the three values |
| `Rewriter.PrepareRewritesDecorator` | src/extension.ts:29-37 | an `@Component` decorator with its class line becomes the decorator for the new options, whatever the old values were |
| `Paths.Split` | src/extension.ts:21 | `split` on one character: at least one piece, none containing the separator |
| `Paths.Join` | src/extension.ts:21 | `join` with one character; `JoinSplit` states that it undoes `Split` |
| `Paths.SiblingPath` | src/extension.ts:21 | `` `${fileName.split('.').slice(0, -1).join('.')}${ext}` ``; `SiblingPathSpec` states what it computes |
| `Paths.ComponentDir` | src/extension.ts:96 | the new component's directory `<dir>/<dashed>` |
| `Paths.ComponentFile` | src/extension.ts:97-99 | the component file `<dir>/<dashed>/<dashed>.component<ext>`; `ComponentFilesApart` states that the three differ |
| `Paths.JoinSplit` | src/extension.ts:21 | `s.split(c).join(c) == s` |
| `Paths.SplitWithout` | src/extension.ts:21 | without a `.` the whole name is the one piece |
| `Paths.SplitAtLast` | src/extension.ts:21 | splitting is the pieces before the last `.`, then the text after it |
| `Paths.SiblingPathSpec` | src/extension.ts:21 | the sibling path is the file name up to its last `.`, then the new extension; a name without `.` gives the extension alone |
| `Paths.ComponentFilesApart` | src/extension.ts:97-99 | the three component files lie in `<dir>/<dashed>/` and are pairwise different |
| `Paths.SourceIsNotStylesTarget` | src/extension.ts:41 | the `.ts` file read is never the `.scss` file written just before |
| `Command.ComponentOptions` | src/extension.ts:44-49 | the options passed to `prepareComponentCode`: the dashed name, the two URLs and `classify(name)` |
| `Command.CopyStyles` | src/extension.ts:20-27 | `writeStyles` on the state: the `.scss` sibling is copied to the target, or None when it is missing |
| `Command.CopyClass` | src/extension.ts:40-54 | `writeComponentClass` on the state: the rewritten `.ts` sibling is written to the target, or None when it is missing |
| `Command.Run` | src/extension.ts:67-104 | the command handler on the state: the three guards, the directory, the two copies and the template write; the `Guards…`, `Generated…`, `ReadFailed…` and `Siblings…` lemmas state what it does |
| `Command.OptionsPointAtComponentFiles` | src/extension.ts:44-49 | the template and style URLs, resolved against the component directory, are the `.html` and `.scss` files written there |
| `Command.ResolvedUrl` | src/extension.ts:46-47 | `./<dashed>.component<ext>` resolved against `<dir>/<dashed>` is the component file with that extension |
| `Command.OptionsNames` | src/extension.ts:44-49 | the selector has no capital; the class name has no separator; for a name without separators, the class name from the raw name equals the one from the dashed name |
| `Command.OptionsRewriteDecorator` | src/extension.ts:44-49 | the options for a new component rewrite a decorator to the dashed selector, the two component file URLs and `<Classified>Component` |
| `Command.DashedKeysFree` | src/extension.ts:44-46 | a dashed name, having no capital, contains neither `templateUrl:` nor `styleUrls`, and neither does its template URL |
| `Command.ComponentUrlFree` | src/extension.ts:46-47 | a component URL contains `export class` only if the dashed name or the suffix does |
| `Command.DasherizeNewName` | src/extension.ts:82 | `NewName` dasherizes to `new-name` |
| `Command.NewNameChars` | src/extension.ts:44-49 | `NewName` and `new-name` meet the conditions of the decorator rewrite |
| `Command.NewNameExample` | src/extension.ts:29-49 | for the name `NewName`, in a decorator laid out as `Decorator`, the four field lines become `selector: 'new-name',`, `templateUrl: './new-name.component.html',`, `styleUrls: ['./new-name.component.scss'],` and `export class NewNameComponent {`; the other lines of that layout (`@Component({`, `})` and `}`) are kept |
| `Command.GuardsTouchNoFile` | src/extension.ts:74-94 | an empty selection changes nothing and shows nothing; an empty name, then an empty directory, shows exactly its one message and touches no file or directory |
| `Command.GeneratedExactly` | src/extension.ts:67-104 | all three files are written exactly when the guards pass and both files to copy exist |
| `Command.GeneratedEffects` | src/extension.ts:96-103 | on success: the directory `<dir>/<dashed>` exists; the writes go to `.scss`, `.ts`, `.html` in that order; they hold the copied stylesheet, the rewritten class and the selection; no other file changes |
| `Command.ReadFailedKeepsEarlierEffects` | src/extension.ts:20-27 | a missing file stops the run without rollback: the directory stays, and a stylesheet copy made before the class file was found missing stays written |
| `Command.SiblingsApart` | src/extension.ts:21 | the stylesheet and class siblings of one file are different files |
| `Command.Workspace.constructor` | src/extension.ts:67 | a workspace starts with the given files, no directories created, nothing written, no message |
| `Command.Workspace.CreateDirectory` | src/extension.ts:96 | the directory is added and nothing else changes |
| `Command.Workspace.ReadFile` | src/extension.ts:22 | the file's contents, or None exactly when there is no such file |
| `Command.Workspace.WriteFile` | src/extension.ts:25 | the file now holds the contents, the write is recorded, and nothing else changes |
| `Command.Workspace.ShowErrorMessage` | src/extension.ts:85 | the message is appended and nothing else changes |
| `Command.Workspace.WriteStyles` | src/extension.ts:20-27 | copies the `.scss` sibling to the target, or reports failure and changes nothing when it is missing |
| `Command.Workspace.WriteComponentClass` | src/extension.ts:40-54 | writes the rewritten `.ts` sibling to the target, or reports failure and changes nothing when it is missing |
| `Command.Workspace.Generate` | src/extension.ts:67-104 | the outcome and the new state are those of `Run` on the old state, so every lemma about `Run` holds of the method |

## Left out

- The editor plumbing is not modelled: command registration, `activeTextEditor`, `showInputBox`, `Uri.file`, `console.log`, `activate` and `deactivate`. The open file name, the selected text, the entered name and the directory are inputs of `Generate`.
- The branch with no active editor (src/extension.ts:69-71) is not modelled, because the model starts from an editor's state.
- A cancelled input box is not modelled. There `name` is `undefined`, and `dasherize(name as string)` at src/extension.ts:82 throws before the empty-name check; the model takes the name as a string.
- `path.dirname` is a Node library call and is not modelled; the directory is an input. In Node it never returns the empty string, so the "Cant find current folder" guard cannot fire there. The model keeps that guard on its input anyway.
- `createDirectory` at src/extension.ts:96 is not awaited. The model treats it as finished before the stylesheet is copied; the race, and races between overlapping runs, are concurrency.
- `strToBlob`, `TextEncoder` and `code.toString()` are not modelled: file contents are strings.
- Failed writes are not modelled, because the model's file store cannot fail a write. A failed read is modelled: `readFile` rejects, the command stops, and nothing done before is undone.
- The guards `if (curStylesFileName && styles)` and `if (fileName && code)` are always true after a successful read: the path ends in `.scss` or `.ts`, and a `Uint8Array` is truthy. The model therefore writes unconditionally after a successful read.
- `toUpperCase` and `toLowerCase` are modelled on ASCII only. Strings are sequences of code points rather than UTF-16 units, so case mappings that change length (`ß` becomes `SS`) and surrogate pairs are not modelled.
- Rewriter.PrepareRewritesFieldLines: the exact-result lemma asks that each field's key not occur before its line, and that the new values contain no `$`. This is sufficient rather than necessary: an earlier occurrence with no `,` (or `{`) after it on its line would not match either. Other inputs are covered only by `ReplaceFirstSpec`, where the outcome follows the first match wherever it falls.
- Rewriter.PrepareRewritesFieldLines: the exact result is stated only for the field order selector, template, styles, class. Other decorator fields may stand before, between or after these lines, but a file with the fields in another order is covered only by `ReplaceFirstSpec`.
- Rewriter.PrepareRewritesDecorator: stated for new values without `$` that do not contain a later field's key (`templateUrl:`, `styleUrls` or `export class`).
- Command.OptionsRewriteDecorator: stated for a dashed name with no capital and no `$` that does not contain `export class`, and for a raw name without `$`. A dashed name produced by `Dasherize` never has a capital (`DasherizeNoUpper`).
