/**
 * The `ng-g-comp.generate` command: from the selected template text, a name
 * and the open component's directory, it creates a new component directory
 * holding a copy of the open component's stylesheet, its class file rewritten
 * for the new name, and the selection as the template.
 */
module Command {
  import opened Wrappers
  import opened Names
  import opened Rewriter
  import opened Paths

  const NameEmptyMessage: string := "Component name cannot be empty"
  const NoFolderMessage: string := "Cant find current folder"

  /** How a run of the command ends. */
  datatype Outcome =
    | NoSelection          // nothing selected: the command does nothing
    | NameEmpty            // the name entered is empty
    | NoFolder             // the open file's directory is empty
    | ReadFailed(path: string)  // a file to copy is missing; the run stops there
    | Generated            // all three component files were written

  /**
   * What the command can observe and change: the files by path, the
   * directories it created, the paths it wrote in order, and the error
   * messages it showed.
   */
  datatype State = State(files: map<string, string>, dirs: set<string>, writes: seq<string>, messages: seq<string>)

  /** The options `writeComponentClass` passes to `prepareComponentCode`. */
  function ComponentOptions(dashed: string, name: string): Options
  {
    Options(dashed, "./" + dashed + ".component.html", "./" + dashed + ".component.scss", Classify(name))
  }

  /**
   * The template and style URLs, resolved against the component directory,
   * are the `.html` and `.scss` files the command writes there.
   */
  lemma OptionsPointAtComponentFiles(dir: string, dashed: string, name: string)
    ensures ComponentDir(dir, dashed) + ComponentOptions(dashed, name).templateUrl[1..]
         == ComponentFile(dir, dashed, ".html")
    ensures ComponentDir(dir, dashed) + ComponentOptions(dashed, name).styleUrl[1..]
         == ComponentFile(dir, dashed, ".scss")
  {
    assert ".component.html" == ".component" + ".html" && ".component.scss" == ".component" + ".scss";
    ResolvedUrl(dir, dashed, ".html", ".component.html");
    ResolvedUrl(dir, dashed, ".scss", ".component.scss");
  }

  /** `./<dashed><suffix>` resolved against `<dir>/<dashed>`. */
  lemma ResolvedUrl(dir: string, dashed: string, ext: string, suffix: string)
    requires suffix == ".component" + ext
    ensures ComponentDir(dir, dashed) + ("./" + dashed + suffix)[1..] == ComponentFile(dir, dashed, ext)
  {
    assert ("./" + dashed + suffix)[1..] == "/" + dashed + suffix;
  }

  /**
   * The selector has no capital and the class name no separator; for a
   * name without separators the class name is the same whether taken from
   * the name or from its dashed form.
   */
  lemma OptionsNames(name: string)
    ensures NoUpper(ComponentOptions(Dasherize(name), name).selector)
    ensures NoSeparator(ComponentOptions(Dasherize(name), name).className)
    ensures |name| > 0 && NoSeparator(name) ==>
      ComponentOptions(Dasherize(name), name).className == Classify(Dasherize(name))
  {
    DasherizeNoUpper(name);
    ClassifyNoSeparator(name);
    if |name| > 0 && NoSeparator(name) {
      ClassifyUndoesDasherize(name);
    }
  }

  /**
   * The options computed for a new component rewrite a decorator's four
   * fields to the dashed name, the two files named after it, and the class
   * name with `Component` appended, when neither name holds a `$` and the
   * dashed name does not contain `export class`.
   */
  lemma OptionsRewriteDecorator(sel0: string, tpl0: string, sty0: string, cls0: string, dashed: string, name: string)
    requires OnOneLine(sel0) && OnOneLine(tpl0) && OnOneLine(sty0) && OnOneLine(cls0)
    requires NoUpper(dashed) && '$' !in dashed && FreeOf(dashed, "export class") && '$' !in name
    ensures PrepareComponentCode(Decorator(sel0, tpl0, sty0, cls0), ComponentOptions(dashed, name))
         == Decorator(dashed, "./" + dashed + ".component.html", "./" + dashed + ".component.scss",
                      Classify(name) + "Component")
  {
    ClassifyOmits(name, '$');
    DashedKeysFree(dashed);
    FreeOfMissingChar(".component.html", "export class", 'x');
    FreeOfMissingChar(".component.scss", "export class", 'x');
    ComponentUrlFree(dashed, ".component.html");
    ComponentUrlFree(dashed, ".component.scss");
    PrepareRewritesDecorator(sel0, tpl0, sty0, cls0, ComponentOptions(dashed, name));
  }

  /** A name without capitals contains neither `templateUrl:` nor `styleUrls`, nor does its template URL. */
  lemma DashedKeysFree(dashed: string)
    requires NoUpper(dashed)
    ensures FreeOf(dashed, "templateUrl:") && FreeOf(dashed, "styleUrls")
    ensures FreeOf("./" + dashed + ".component.html", "styleUrls")
  {
    assert 'U' !in dashed;
    FreeOfMissingChar(dashed, "templateUrl:", 'U');
    FreeOfMissingChar(dashed, "styleUrls", 'U');
    FreeOfMissingChar("./" + dashed + ".component.html", "styleUrls", 'U');
  }

  /** `./<dashed><suffix>` contains `export class` only if the dashed name or the suffix does. */
  lemma ComponentUrlFree(dashed: string, suffix: string)
    requires FreeOf(dashed, "export class") && FreeOf(suffix, "export class")
    requires |suffix| > 0 && suffix[0] == '.'
    ensures FreeOf("./" + dashed + suffix, "export class")
  {
    FreeOfJoin("./", dashed, "export class");
    FreeOfJoin("./" + dashed, suffix, "export class");
  }

  /** `NewName` dasherizes to `new-name`. */
  lemma DasherizeNewName()
    ensures Dasherize("NewName") == "new-name"
  {
    assert "NewName" == "New" + "Name";
    DasherizeAppend("New", "Name");
    assert Dasherize("New") == "new";
    assert DashRest("Name") == "-name";
  }

  /** `NewName` and `new-name` hold nothing the rewrite excludes. */
  lemma NewNameChars()
    ensures '$' !in "new-name" && FreeOf("new-name", "export class")
    ensures '$' !in "NewName" && NoSeparator("NewName")
  {
    FreeOfMissingChar("new-name", "export class", 'x');
  }

  /** `NewName` is already a class name. */
  lemma ClassifyNewName()
    ensures Classify("NewName") == "NewName"
  {
    NewNameChars();
    ClassifyOfPlain("NewName");
    assert "NewName"[1..] == "ewName";
  }

  /** Proof step for the example below: its three literal values, spelled out. */
  lemma NewNameValues()
    ensures "./" + "new-name" + ".component.html" == "./new-name.component.html"
    ensures "./" + "new-name" + ".component.scss" == "./new-name.component.scss"
    ensures "NewName" + "Component" == "NewNameComponent"
  {
  }

  /**
   * The name `NewName` turns a decorator into one for the `new-name`
   * component, whatever its four fields said before.
   */
  lemma NewNameExample(sel0: string, tpl0: string, sty0: string, cls0: string)
    requires OnOneLine(sel0) && OnOneLine(tpl0) && OnOneLine(sty0) && OnOneLine(cls0)
    ensures PrepareComponentCode(Decorator(sel0, tpl0, sty0, cls0), ComponentOptions(Dasherize("NewName"), "NewName"))
         == Decorator("new-name", "./new-name.component.html", "./new-name.component.scss", "NewNameComponent")
  {
    DasherizeNewName();
    DasherizeNoUpper("NewName");
    NewNameChars();
    ClassifyNewName();
    OptionsRewriteDecorator(sel0, tpl0, sty0, cls0, "new-name", "NewName");
    NewNameValues();
  }

  /** Writing `content` to `path`, and recording the write. */
  function Write(st: State, path: string, content: string): State
  {
    st.(files := st.files[path := content], writes := st.writes + [path])
  }

  /** `writeStyles`: copy the open file's `.scss` sibling to `target`, or fail when it is missing. */
  function CopyStyles(st: State, fileName: string, target: string): Option<State>
  {
    var source := SiblingPath(fileName, ".scss");
    if source in st.files then Some(Write(st, target, st.files[source])) else None
  }

  /**
   * `writeComponentClass`: write the open file's `.ts` sibling, rewritten for
   * the new component, to `target`, or fail when it is missing.
   */
  function CopyClass(st: State, fileName: string, target: string, dashed: string, name: string): Option<State>
  {
    var source := SiblingPath(fileName, ".ts");
    if source in st.files
    then Some(Write(st, target, PrepareComponentCode(st.files[source], ComponentOptions(dashed, name))))
    else None
  }

  /** One run of the command, as a function of the state before it. */
  function Run(st: State, fileName: string, selectedText: string, name: string, dir: string): (Outcome, State)
  {
    if |selectedText| == 0 then (NoSelection, st)
    else if |name| == 0 then (NameEmpty, st.(messages := st.messages + [NameEmptyMessage]))
    else if |dir| == 0 then (NoFolder, st.(messages := st.messages + [NoFolderMessage]))
    else
      var dashed := Dasherize(name);
      var st1 := st.(dirs := st.dirs + {ComponentDir(dir, dashed)});
      match CopyStyles(st1, fileName, ComponentFile(dir, dashed, ".scss"))
      case None => (ReadFailed(SiblingPath(fileName, ".scss")), st1)
      case Some(st2) =>
        match CopyClass(st2, fileName, ComponentFile(dir, dashed, ".ts"), dashed, name)
        case None => (ReadFailed(SiblingPath(fileName, ".ts")), st2)
        case Some(st3) => (Generated, Write(st3, ComponentFile(dir, dashed, ".html"), selectedText))
  }

  /**
   * The three guards: an empty selection changes nothing; an empty name or
   * directory shows exactly its one message and touches no file or directory.
   */
  lemma GuardsTouchNoFile(st: State, fileName: string, selectedText: string, name: string, dir: string)
    ensures var (outcome, st') := Run(st, fileName, selectedText, name, dir);
      && (outcome == NoSelection <==> |selectedText| == 0)
      && (outcome == NoSelection ==> st' == st)
      && (outcome == NameEmpty <==> |selectedText| > 0 && |name| == 0)
      && (outcome == NoFolder <==> |selectedText| > 0 && |name| > 0 && |dir| == 0)
      && (outcome == NameEmpty ==> st' == st.(messages := st.messages + [NameEmptyMessage]))
      && (outcome == NoFolder ==> st' == st.(messages := st.messages + [NoFolderMessage]))
  {
  }

  /**
   * The command writes all three files exactly when the guards pass and both
   * files to copy exist beforehand.
   */
  lemma GeneratedExactly(st: State, fileName: string, selectedText: string, name: string, dir: string)
    ensures Run(st, fileName, selectedText, name, dir).0 == Generated
        <==> |selectedText| > 0 && |name| > 0 && |dir| > 0
             && SiblingPath(fileName, ".scss") in st.files && SiblingPath(fileName, ".ts") in st.files
  {
    if |selectedText| > 0 && |name| > 0 && |dir| > 0 {
      SourceIsNotStylesTarget(fileName, dir, Dasherize(name));
    }
  }

  /**
   * A successful run creates `<dir>/<dashed>`, writes the stylesheet copy,
   * the rewritten class and the selection to the three component files in
   * that order, and leaves every other file as it was.
   */
  lemma GeneratedEffects(st: State, fileName: string, selectedText: string, name: string, dir: string)
    requires |selectedText| > 0 && |name| > 0 && |dir| > 0
    requires SiblingPath(fileName, ".scss") in st.files && SiblingPath(fileName, ".ts") in st.files
    ensures Run(st, fileName, selectedText, name, dir).0 == Generated
    ensures var st' := Run(st, fileName, selectedText, name, dir).1;
      var d := Dasherize(name);
      var (scss, ts, html) := (ComponentFile(dir, d, ".scss"), ComponentFile(dir, d, ".ts"), ComponentFile(dir, d, ".html"));
      && st'.dirs == st.dirs + {ComponentDir(dir, d)}
      && st'.writes == st.writes + [scss, ts, html]
      && st'.messages == st.messages
      && scss in st'.files && st'.files[scss] == st.files[SiblingPath(fileName, ".scss")]
      && ts in st'.files
      && st'.files[ts] == PrepareComponentCode(st.files[SiblingPath(fileName, ".ts")], ComponentOptions(d, name))
      && html in st'.files && st'.files[html] == selectedText
      && (forall p :: p !in {scss, ts, html} ==>
            (p in st'.files <==> p in st.files) && (p in st.files ==> st'.files[p] == st.files[p]))
  {
    var d := Dasherize(name);
    ComponentFilesApart(dir, d);
    SourceIsNotStylesTarget(fileName, dir, d);
    GeneratedExactly(st, fileName, selectedText, name, dir);
  }

  /**
   * A missing file stops the run without undoing anything: the directory
   * stays created, and when the class file is the one missing, the
   * stylesheet copy stays written.
   */
  lemma ReadFailedKeepsEarlierEffects(st: State, fileName: string, selectedText: string, name: string, dir: string)
    requires Run(st, fileName, selectedText, name, dir).0.ReadFailed?
    ensures var (outcome, st') := Run(st, fileName, selectedText, name, dir);
      var d := Dasherize(name);
      var styles := SiblingPath(fileName, ".scss");
      && outcome.path !in st.files
      && st'.dirs == st.dirs + {ComponentDir(dir, d)}
      && st'.messages == st.messages
      && (outcome.path == styles ==> st'.files == st.files && st'.writes == st.writes)
      && (outcome.path != styles ==>
            && outcome.path == SiblingPath(fileName, ".ts")
            && st'.files == st.files[ComponentFile(dir, d, ".scss") := st.files[styles]]
            && st'.writes == st.writes + [ComponentFile(dir, d, ".scss")])
  {
    var d := Dasherize(name);
    SourceIsNotStylesTarget(fileName, dir, d);
    SiblingsApart(fileName);
  }

  /** The two siblings of one file differ: one ends in `.scss`, the other in `.ts`. */
  lemma SiblingsApart(fileName: string)
    ensures SiblingPath(fileName, ".scss") != SiblingPath(fileName, ".ts")
  {
    var a, b := SiblingPath(fileName, ".scss"), SiblingPath(fileName, ".ts");
    assert a[|a| - 2] == 's';
    assert b[|b| - 2] == 't';
  }

  /** The editor's workspace, changed in place by the command. */
  class Workspace {
    var files: map<string, string>
    var dirs: set<string>
    var writes: seq<string>
    var messages: seq<string>

    function Snapshot(): State
      reads this
    {
      State(files, dirs, writes, messages)
    }

    constructor (initial: map<string, string>)
      ensures Snapshot() == State(initial, {}, [], [])
    {
      files, dirs, writes, messages := initial, {}, [], [];
    }

    /** `workspace.fs.createDirectory`. */
    method CreateDirectory(path: string)
      modifies this
      ensures Snapshot() == old(Snapshot()).(dirs := old(dirs) + {path})
    {
      dirs := dirs + {path};
    }

    /** `workspace.fs.readFile`: the contents, or None when there is no such file. */
    method ReadFile(path: string) returns (r: Option<string>)
      ensures r.Some? <==> path in files
      ensures r.Some? ==> r.value == files[path]
    {
      r := if path in files then Some(files[path]) else None;
    }

    /** `workspace.fs.writeFile`: creates or overwrites the file. */
    method WriteFile(path: string, content: string)
      modifies this
      ensures Snapshot() == Write(old(Snapshot()), path, content)
    {
      files := files[path := content];
      writes := writes + [path];
    }

    /** `window.showErrorMessage`. */
    method ShowErrorMessage(message: string)
      modifies this
      ensures Snapshot() == old(Snapshot()).(messages := old(messages) + [message])
    {
      messages := messages + [message];
    }

    /** `writeStyles`; `ok` is false when the stylesheet to copy is missing. */
    method WriteStyles(fileName: string, target: string) returns (ok: bool)
      modifies this
      ensures ok <==> CopyStyles(old(Snapshot()), fileName, target).Some?
      ensures ok ==> Snapshot() == CopyStyles(old(Snapshot()), fileName, target).value
      ensures !ok ==> Snapshot() == old(Snapshot())
    {
      var source := SiblingPath(fileName, ".scss");
      var styles := ReadFile(source);
      if styles.None? {
        return false;
      }
      WriteFile(target, styles.value);
      ok := true;
    }

    /** `writeComponentClass`; `ok` is false when the class file to copy is missing. */
    method WriteComponentClass(fileName: string, target: string, dashed: string, name: string) returns (ok: bool)
      modifies this
      ensures ok <==> CopyClass(old(Snapshot()), fileName, target, dashed, name).Some?
      ensures ok ==> Snapshot() == CopyClass(old(Snapshot()), fileName, target, dashed, name).value
      ensures !ok ==> Snapshot() == old(Snapshot())
    {
      var source := SiblingPath(fileName, ".ts");
      var code := ReadFile(source);
      if code.None? {
        return false;
      }
      var classContent := PrepareComponentCode(code.value, ComponentOptions(dashed, name));
      WriteFile(target, classContent);
      ok := true;
    }

    /** The command handler, from the selection on. */
    method Generate(fileName: string, selectedText: string, name: string, dir: string) returns (outcome: Outcome)
      modifies this
      ensures (outcome, Snapshot()) == Run(old(Snapshot()), fileName, selectedText, name, dir)
    {
      if |selectedText| == 0 {
        return NoSelection;
      }
      var nameDashed := Dasherize(name);
      if |name| == 0 {
        ShowErrorMessage(NameEmptyMessage);
        return NameEmpty;
      }
      if |dir| == 0 {
        ShowErrorMessage(NoFolderMessage);
        return NoFolder;
      }
      CreateDirectory(ComponentDir(dir, nameDashed));
      var componentFileName := ComponentFile(dir, nameDashed, ".ts");
      var templateFileName := ComponentFile(dir, nameDashed, ".html");
      var stylesFileName := ComponentFile(dir, nameDashed, ".scss");
      var ok := WriteStyles(fileName, stylesFileName);
      if !ok {
        return ReadFailed(SiblingPath(fileName, ".scss"));
      }
      ok := WriteComponentClass(fileName, componentFileName, nameDashed, name);
      if !ok {
        return ReadFailed(SiblingPath(fileName, ".ts"));
      }
      WriteFile(templateFileName, selectedText);
      outcome := Generated;
    }
  }
}
