/**
  The `show <keyword>` command as a function from the looked-up problem and
  the command-line flags to its effects: the console lines it prints and the
  files and directories it writes. The methods of module `Handler` perform
  the same effects step by step and are proved to end in `HandlerEffect`.
 */
module Show {
  import opened Text

  datatype Option<T> = None | Some(value: T)

  /** Starter code for one language. */
  datatype Template = Template(value: string, defaultCode: string)

  /** The problem record the lookup yields. */
  datatype Problem = Problem(
    id: int, key: string, name: string, link: string,
    level: string, percent: real, totalAC: int, totalSubmit: int,
    desc: string, templates: seq<Template>)

  /** The parsed command line: `show <keyword> [--gen] [--dump] [--lang <lang>]`. */
  datatype Args = Args(keyword: string, gen: bool, dump: bool, lang: string)

  /** What the problem lookup hands to the callback: an error or the problem. */
  datatype Lookup = Failed(error: string) | Found(problem: Problem)

  /**
    Collaborators whose code is outside this model: the language-to-extension
    table, the 77-column word wrapper and the two-decimal number formatter.
   */
  datatype Helpers = Helpers(langToExt: string -> string, wrap: string -> string, fixed2: real -> string)

  /** Files by path, the set of directories, and the console lines printed so far. */
  datatype State = State(files: map<string, string>, dirs: set<string>, out: seq<string>)

  /** `s` occurs somewhere inside `text`. */
  predicate Contains(text: string, s: string) {
    exists i :: 0 <= i <= |text| && s <= text[i..]
  }

  predicate EndsWith(text: string, s: string) {
    |s| <= |text| && text[|text| - |s|..] == s
  }

  // ---------------------------------------------------------------------------
  // Template selection

  /** The first template whose language is exactly `lang`, if any. */
  function FindTemplate(ts: seq<Template>, lang: string): (r: Option<Template>)
    ensures r.Some? <==> exists i :: 0 <= i < |ts| && ts[i].value == lang
    ensures r.Some? ==> r.value in ts && r.value.value == lang
    ensures forall i :: 0 <= i < |ts| && ts[i].value == lang && (forall j :: 0 <= j < i ==> ts[j].value != lang)
              ==> r == Some(ts[i])
  {
    if ts == [] then None
    else if ts[0].value == lang then Some(ts[0])
    else
      var r := FindTemplate(ts[1..], lang);
      FirstMatchBehind(ts[0], ts[1..], lang, r);
      assert [ts[0]] + ts[1..] == ts;
      r
  }

  // A first match in `rest` is a first match behind a head that does not match.
  lemma FirstMatchBehind(head: Template, rest: seq<Template>, lang: string, r: Option<Template>)
    requires head.value != lang
    requires r.Some? <==> exists i :: 0 <= i < |rest| && rest[i].value == lang
    requires r.Some? ==> r.value in rest && r.value.value == lang
    requires forall i :: 0 <= i < |rest| && rest[i].value == lang && (forall j :: 0 <= j < i ==> rest[j].value != lang)
               ==> r == Some(rest[i])
    ensures var ts := [head] + rest;
            && (r.Some? <==> exists i :: 0 <= i < |ts| && ts[i].value == lang)
            && (r.Some? ==> r.value in ts && r.value.value == lang)
            && (forall i :: 0 <= i < |ts| && ts[i].value == lang && (forall j :: 0 <= j < i ==> ts[j].value != lang)
                  ==> r == Some(ts[i]))
  {
    var ts := [head] + rest;
    assert forall i :: 1 <= i < |ts| ==> ts[i] == rest[i - 1];
    forall i | 0 <= i < |ts| && ts[i].value == lang && (forall j :: 0 <= j < i ==> ts[j].value != lang)
      ensures r == Some(ts[i])
    {
      assert i >= 1;
      assert forall j :: 0 <= j < i - 1 ==> rest[j].value != lang by {
        forall j | 0 <= j < i - 1 ensures rest[j].value != lang {
          assert ts[j + 1] == rest[j];
        }
      }
    }
    if r.Some? {
      var k :| 0 <= k < |rest| && rest[k].value == lang;
      assert ts[k + 1].value == lang;
    }
  }

  function UnknownLanguage(lang: string): string {
    "Failed to generate source file: unknown language " + lang
  }

  // ---------------------------------------------------------------------------
  // The summary printed to the console

  /** The file written by `--gen`: the problem key with the language's extension. */
  function GenPath(key: string, lang: string, h: Helpers): string {
    key + h.langToExt(lang)
  }

  function FileNote(path: string): string {
    "(File: " + path + ")"
  }

  /** The five console lines of the summary; `msg` is the `(File: ...)` note or empty. */
  function Summary(p: Problem, msg: string, fixed2: real -> string): (lines: seq<string>)
    ensures |lines| == 5
    ensures "[" + Decimal(p.id) + "] " + p.name + "\t" + msg <= lines[0]
    ensures p.link <= lines[1]
    ensures lines[2] == "* " + p.level + " (" + fixed2(p.percent) + "%)"
    ensures "* Total Accepted: " + Decimal(p.totalAC) == lines[3]
    ensures "* Total Submissions: " + Decimal(p.totalSubmit) <= lines[4]
    ensures EndsWith(lines[0], "\n") && EndsWith(lines[1], "\n") && EndsWith(lines[4], "\n")
  {
    [ Title(p) + "\t" + msg + "\n",
      p.link + "\n",
      "* " + p.level + " (" + fixed2(p.percent) + "%)",
      "* Total Accepted: " + Decimal(p.totalAC),
      "* Total Submissions: " + Decimal(p.totalSubmit) + "\n" ]
  }

  // ---------------------------------------------------------------------------
  // The dump profile: where the dump goes and how it is commented

  /** How the description appears in the dump file. */
  datatype Style = LineComments | BlockComment | Omitted

  /**
    The per-language choices of the dump: the file path, the directory to
    create first (if any), the comment delimiter, the file header, the
    library import line and the description style.
   */
  datatype Profile = Profile(
    path: string, dir: Option<string>, delimiter: string,
    header: string, library: string, style: Style)

  predicate IsScript(lang: string) {
    lang == "python" || lang == "ruby"
  }

  /** `<id>_<key>`, the base name of every dump. */
  function Stem(id: int, key: string): string {
    Decimal(id) + "_" + key
  }

  function ProfileFor(id: int, key: string, lang: string, ext: string -> string): (pr: Profile)
    ensures Stem(id, key) <= pr.path
    ensures pr.dir.Some? <==> lang == "java"
    ensures pr.dir.Some? ==> pr.dir.value == Stem(id, key)
    ensures pr.library != "" <==> lang == "java"
    ensures pr.style == LineComments <==> IsScript(lang)
    ensures pr.style == BlockComment <==> lang == "java"
    ensures pr.delimiter == "#" <==> IsScript(lang)
  {
    var stem := Stem(id, key);
    assert stem <= stem + ext(lang);
    assert stem <= stem + "/Solution" + ext(lang);
    if IsScript(lang) then
      Profile(stem + ext(lang), None, "#", "#!/usr/bin/env " + lang + "\n#\n", "", LineComments)
    else if lang == "java" then
      Profile(stem + "/Solution" + ext(lang), Some(stem), "//", "", JavaLibrary, BlockComment)
    else
      Profile(stem, None, "//", "", "", Omitted)
  }

  // ---------------------------------------------------------------------------
  // The dump file, one piece per append

  const JavaLibrary := "import java.util.*;"

  /** `[<id>] <name>`, how both the summary and the dump name a problem. */
  function Title(p: Problem): string {
    "[" + Decimal(p.id) + "] " + p.name
  }

  function TitleLine(delim: string, p: Problem): string {
    delim + " " + Title(p) + "\n"
  }

  function LinkLines(delim: string, p: Problem): string {
    delim + " " + p.link + "\n" + delim + "\n"
  }

  function LevelLine(delim: string, p: Problem, fixed2: real -> string): string {
    delim + " * " + p.level + " (" + fixed2(p.percent) + "%)\n"
  }

  function AcceptedLine(delim: string, p: Problem): string {
    delim + " * Total Accepted: " + Decimal(p.totalAC) + "\n"
  }

  function SubmissionsLine(delim: string, p: Problem): string {
    delim + " * Total Submissions: " + Decimal(p.totalSubmit) + "\n"
  }

  /** The description, commented out line by line or as one block, or nothing. */
  function DescBlock(pr: Profile, description: string): string {
    match pr.style
    case LineComments => "\n" + "# " + Join(SplitLines(description), "\n" + pr.delimiter + " ")
    case BlockComment => "\n" + "/* " + Join(SplitLines(description), "\n" + " * ") + "\n */\n"
    case Omitted => ""
  }

  function TimeLine(delim: string): string {
    "\n" + delim + " Time  Complexity: O()\n"
  }

  function SpaceLine(delim: string): string {
    delim + " Space Complexity: O()\n\n\n"
  }

  function LibraryLines(library: string): string {
    if library != "" then library + "\n\n" else ""
  }

  /** The starter code with every carriage return and tab removed. */
  function CleanCode(code: string): (r: string)
    ensures forall i :: 0 <= i < |r| ==> r[i] != '\r' && r[i] != '\t'
  {
    Remove(code, {'\r', '\t'})
  }

  /** The eleven pieces of the dump, in the order they are written. */
  function DumpPieces(p: Problem, pr: Profile, description: string, code: string, fixed2: real -> string): (ps: seq<string>)
    ensures |ps| == 11
    ensures ps[0] == pr.header && ps[10] == CleanCode(code)
    ensures ps[6] == "" <==> pr.style == Omitted
    ensures ps[9] == "" <==> pr.library == ""
  {
    [ pr.header, TitleLine(pr.delimiter, p), LinkLines(pr.delimiter, p), LevelLine(pr.delimiter, p, fixed2),
      AcceptedLine(pr.delimiter, p), SubmissionsLine(pr.delimiter, p), DescBlock(pr, description),
      TimeLine(pr.delimiter), SpaceLine(pr.delimiter), LibraryLines(pr.library), CleanCode(code) ]
  }

  function DumpContent(p: Problem, pr: Profile, description: string, code: string, fixed2: real -> string): (c: string)
    ensures pr.header <= c
    ensures EndsWith(c, CleanCode(code))
  {
    var ps := DumpPieces(p, pr, description, code, fixed2);
    ConcatEnds(ps);
    Concat(ps)
  }

  /** The first part starts the concatenation and the last part ends it. */
  lemma ConcatEnds(ps: seq<string>)
    requires |ps| >= 1
    ensures ps[0] <= Concat(ps)
    ensures EndsWith(Concat(ps), ps[|ps| - 1])
  {
    PrefixOfAppend(ps[0], Concat(ps[1..]));
    ConcatLast(ps);
  }

  lemma ConcatSingle(x: string)
    ensures Concat([x]) == x
  {
    assert [x][1..] == [];
    assert x + "" == x;
  }

  lemma ConcatLast(ps: seq<string>)
    requires |ps| >= 1
    ensures EndsWith(Concat(ps), ps[|ps| - 1])
  {
    var n := |ps| - 1;
    var init, last := ps[..n], ps[n];
    ConcatSplit(ps, n);
    assert ps[n..] == [last];
    ConcatSingle(last);
    EndsWithAppend(Concat(init), last);
  }

  /** The effect of the dump: maybe create the directory, then (over)write the file. */
  function DumpEffect(s: State, p: Problem, lang: string, t: Template, description: string, h: Helpers): (r: State)
    ensures r.out == s.out
    ensures r.files.Keys == s.files.Keys + {ProfileFor(p.id, p.key, lang, h.langToExt).path}
    ensures s.dirs <= r.dirs <= s.dirs + {Stem(p.id, p.key)}
  {
    var pr := ProfileFor(p.id, p.key, lang, h.langToExt);
    var dirs := if pr.dir.Some? && !(pr.dir.value in s.files || pr.dir.value in s.dirs)
                then s.dirs + {pr.dir.value} else s.dirs;
    State(s.files[pr.path := DumpContent(p, pr, description, t.defaultCode, h.fixed2)], dirs, s.out)
  }

  // ---------------------------------------------------------------------------
  // The whole command

  /** The description as shown: normalised, then word-wrapped. */
  function Description(p: Problem, h: Helpers): (r: string)
    ensures exists d :: Normal(d) && Remove(d, {'\n'}) == Remove(p.desc, {'\r', '\n'}) && r == h.wrap(d)
  {
    NormalizeKeepsText(p.desc);
    h.wrap(Normalize(p.desc))
  }

  function HandlerEffect(a: Args, res: Lookup, h: Helpers, s: State): (r: State)
    ensures s.out <= r.out && s.files.Keys <= r.files.Keys && s.dirs <= r.dirs
    ensures |r.out| == |s.out| + match res
      case Failed(_) => 1
      case Found(p) =>
        var found := FindTemplate(p.templates, a.lang).Some?;
        if a.gen && !found then 1 else if a.dump && found then 5 else 6
  {
    match res
    case Failed(e) =>
      LinesExtend(s.out, ["ERROR: " + e]);
      s.(out := s.out + ["ERROR: " + e])
    case Found(p) =>
      var tpl := FindTemplate(p.templates, a.lang);
      if a.gen && tpl.None? then
        LinesExtend(s.out, [UnknownLanguage(a.lang)]);
        s.(out := s.out + [UnknownLanguage(a.lang)])
      else
        var s1 := if a.gen then s.(files := s.files[GenPath(p.key, a.lang, h) := tpl.value.defaultCode]) else s;
        var msg := if a.gen then FileNote(GenPath(p.key, a.lang, h)) else "";
        LinesExtend(s.out, Summary(p, msg, h.fixed2));
        AfterSummary(a, p, tpl, h, s1.(out := s1.out + Summary(p, msg, h.fixed2)))
  }

  /** What follows the summary: the description, the unknown-language error, or the dump. */
  function AfterSummary(a: Args, p: Problem, tpl: Option<Template>, h: Helpers, s: State): (r: State)
    ensures s.out <= r.out && s.files.Keys <= r.files.Keys && s.dirs <= r.dirs
    ensures |r.out| == |s.out| + if a.dump && tpl.Some? then 0 else 1
  {
    if !a.dump then
      LinesExtend(s.out, [Description(p, h)]);
      s.(out := s.out + [Description(p, h)])
    else if tpl.None? then
      LinesExtend(s.out, [UnknownLanguage(a.lang)]);
      s.(out := s.out + [UnknownLanguage(a.lang)])
    else DumpEffect(s, p, a.lang, tpl.value, Description(p, h), h)
  }

  lemma LinesExtend(before: seq<string>, added: seq<string>)
    ensures before <= before + added
  {
    assert (before + added)[..|before|] == before;
  }

  // ---------------------------------------------------------------------------
  // Properties of the command

  /** A failed lookup prints the error and does nothing else. */
  lemma LookupFailureReported(a: Args, e: string, h: Helpers, s: State)
    ensures HandlerEffect(a, Failed(e), h, s) == State(s.files, s.dirs, s.out + ["ERROR: " + e])
  {
  }

  /**
    `--gen` with a language no template has: the error line is the only
    output, before any summary, and no file or directory is touched.
   */
  lemma GenUnknownLanguage(a: Args, p: Problem, h: Helpers, s: State)
    requires a.gen
    requires forall i :: 0 <= i < |p.templates| ==> p.templates[i].value != a.lang
    ensures HandlerEffect(a, Found(p), h, s) == State(s.files, s.dirs, s.out + [UnknownLanguage(a.lang)])
  {
  }

  /**
    `--gen` with a matching template (the first one, at index `i`) and no
    `--dump`: exactly one file, `<key><ext>`, is written with the template's
    code verbatim; the summary carries the file note, then the description
    is printed.
   */
  lemma GenWritesTemplate(a: Args, p: Problem, h: Helpers, s: State, i: nat)
    requires a.gen && !a.dump
    requires i < |p.templates| && p.templates[i].value == a.lang
    requires forall j :: 0 <= j < i ==> p.templates[j].value != a.lang
    ensures var r := HandlerEffect(a, Found(p), h, s);
            && r.files == s.files[p.key + h.langToExt(a.lang) := p.templates[i].defaultCode]
            && r.dirs == s.dirs
            && r.out == s.out + Summary(p, "(File: " + p.key + h.langToExt(a.lang) + ")", h.fixed2) + [Description(p, h)]
  {
    var t := p.templates[i];
    assert FindTemplate(p.templates, a.lang) == Some(t);
    var path := GenPath(p.key, a.lang, h);
    var s1 := s.(files := s.files[path := t.defaultCode]);
    assert FileNote(path) == "(File: " + p.key + h.langToExt(a.lang) + ")";
    var s2 := s1.(out := s1.out + Summary(p, FileNote(path), h.fixed2));
    assert HandlerEffect(a, Found(p), h, s) == s2.(out := s2.out + [Description(p, h)]);
  }

  /**
    Problem 1, `two-sum`, with a python template: `--gen --lang python`
    writes `two-sum.py` holding exactly the template code, and a dump would
    go to `1_two-sum.py`.
   */
  lemma TwoSumExample(p: Problem, h: Helpers, s: State)
    requires p.id == 1 && p.key == "two-sum" && p.templates == [Template("python", "def twoSum(...): pass")]
    requires h.langToExt("python") == ".py"
    ensures HandlerEffect(Args("two-sum", true, false, "python"), Found(p), h, s).files
         == s.files["two-sum.py" := "def twoSum(...): pass"]
    ensures ProfileFor(p.id, p.key, "python", h.langToExt).path == "1_two-sum.py"
  {
    var a := Args("two-sum", true, false, "python");
    var t := p.templates[0];
    assert t.value == "python" && t.defaultCode == "def twoSum(...): pass";
    GenWritesTemplate(a, p, h, s, 0);
    assert p.key + h.langToExt("python") == "two-sum.py";
    DecimalOne();
    assert Stem(p.id, p.key) == "1_two-sum";
    assert ProfileFor(p.id, p.key, "python", h.langToExt).path == Stem(p.id, p.key) + h.langToExt("python");
  }

  lemma DecimalOne()
    ensures Decimal(1) == "1"
  {
    assert Digits(1) == [DigitChar(1)];
  }

  /**
    Whenever the summary is printed, what follows it: the description when
    there is no `--dump`; with `--dump` never the description, only the
    unknown-language error when no template matches.
   */
  lemma DumpOrDescription(a: Args, p: Problem, h: Helpers, s: State)
    requires !a.gen || FindTemplate(p.templates, a.lang).Some?
    ensures var r := HandlerEffect(a, Found(p), h, s);
            var msg := if a.gen then FileNote(GenPath(p.key, a.lang, h)) else "";
            && (!a.dump ==> r.out == s.out + Summary(p, msg, h.fixed2) + [Description(p, h)])
            && (a.dump && FindTemplate(p.templates, a.lang).Some? ==> r.out == s.out + Summary(p, msg, h.fixed2))
            && (a.dump && FindTemplate(p.templates, a.lang).None? ==>
                  r.out == s.out + Summary(p, msg, h.fixed2) + [UnknownLanguage(a.lang)])
  {
  }

  /**
    A plain `show` (neither `--gen` nor `--dump`): the summary without a file
    note and the description are printed, and no file or directory changes.
   */
  lemma PlainShow(kw: string, lang: string, p: Problem, h: Helpers, s: State)
    ensures HandlerEffect(Args(kw, false, false, lang), Found(p), h, s)
         == State(s.files, s.dirs, s.out + Summary(p, "", h.fixed2) + [Description(p, h)])
  {
  }

  /**
    `--dump` (without `--gen`) and a language no template has: the summary
    and the error are printed, and no file or directory is written.
   */
  lemma DumpUnknownLanguage(a: Args, p: Problem, h: Helpers, s: State)
    requires a.dump && !a.gen
    requires forall i :: 0 <= i < |p.templates| ==> p.templates[i].value != a.lang
    ensures HandlerEffect(a, Found(p), h, s)
         == State(s.files, s.dirs, s.out + Summary(p, "", h.fixed2) + [UnknownLanguage(a.lang)])
  {
  }


  /**
    The dump itself: the file at the profile's path gets `DumpContent` and no
    other file changes; the profile's directory is created exactly when it
    is neither a file nor a directory yet, and only the Java profile has one.
   */
  lemma DumpEffectWrites(s: State, p: Problem, lang: string, t: Template, description: string, h: Helpers)
    ensures var r := DumpEffect(s, p, lang, t, description, h);
            var pr := ProfileFor(p.id, p.key, lang, h.langToExt);
            && pr.path in r.files
            && r.files[pr.path] == DumpContent(p, pr, description, t.defaultCode, h.fixed2)
            && (forall f :: f in s.files && f != pr.path ==> f in r.files && r.files[f] == s.files[f])
            && r.files.Keys == s.files.Keys + {pr.path}
            && r.out == s.out
            && r.dirs == if lang == "java" && Stem(p.id, p.key) !in s.files && Stem(p.id, p.key) !in s.dirs
                         then s.dirs + {Stem(p.id, p.key)} else s.dirs
  {
  }

  /**
    `--dump` with a matching template: after the `--gen` file and the
    summary, the dump is written (and the description is not printed).
   */
  lemma DumpWritesFile(a: Args, p: Problem, h: Helpers, s: State, t: Template)
    requires a.dump && FindTemplate(p.templates, a.lang) == Some(t)
    ensures (var s1 := if a.gen then s.(files := s.files[GenPath(p.key, a.lang, h) := t.defaultCode]) else s;
             var msg := if a.gen then FileNote(GenPath(p.key, a.lang, h)) else "";
             HandlerEffect(a, Found(p), h, s)
             == DumpEffect(s1.(out := s.out + Summary(p, msg, h.fixed2)), p, a.lang, t, Description(p, h), h))
  {
  }

  /** Where the dump goes, by language. */
  lemma DumpPathByLanguage(id: int, key: string, lang: string, ext: string -> string)
    ensures var pr := ProfileFor(id, key, lang, ext);
            && (IsScript(lang) ==> pr.path == Decimal(id) + "_" + key + ext(lang) && pr.dir == None)
            && (lang == "java" ==>
                  pr.path == Decimal(id) + "_" + key + "/Solution" + ext(lang)
                  && pr.dir == Some(Decimal(id) + "_" + key))
            && (!IsScript(lang) && lang != "java" ==> pr.path == Decimal(id) + "_" + key && pr.dir == None)
  {
  }

  /** The dump path always starts with `<id>_<key>`, and the Java dump sits inside the directory it creates. */
  lemma DumpPathShape(id: int, key: string, lang: string, ext: string -> string)
    ensures var pr := ProfileFor(id, key, lang, ext);
            && Stem(id, key) <= pr.path
            && (pr.dir.Some? ==> pr.dir.value + "/" <= pr.path)
  {
    var pr := ProfileFor(id, key, lang, ext);
    if lang == "java" {
      var stem := Stem(id, key);
      PathRegroup(stem, ext(lang));
      PrefixOfAppend(stem + "/", "Solution" + ext(lang));
    }
  }

  /** The dump stem `<id>_<key>` determines both the id and the key. */
  lemma StemDeterminesId(id1: int, key1: string, id2: int, key2: string)
    requires Stem(id1, key1) == Stem(id2, key2)
    ensures id1 == id2 && key1 == key2
  {
    var d1, d2 := Decimal(id1), Decimal(id2);
    UnderscoreSplit(d1, key1, d2, key2);
    DecimalInjective(id1, id2);
  }

  // Two texts whose first `_` ends a known prefix split there into equal halves.
  lemma UnderscoreSplit(a1: string, b1: string, a2: string, b2: string)
    requires a1 + "_" + b1 == a2 + "_" + b2
    requires '_' !in a1 && '_' !in a2
    ensures a1 == a2 && b1 == b2
  {
    var t1, t2 := a1 + "_" + b1, a2 + "_" + b2;
    FirstUnderscore(a1, b1);
    FirstUnderscore(a2, b2);
    assert |a1| == |a2|;
    assert a1 == t1[..|a1|] && a2 == t2[..|a2|];
    assert b1 == t1[|a1| + 1..] && b2 == t2[|a2| + 1..];
  }

  // In `a + "_" + b` with no `_` in `a`, the first `_` is at index `|a|`.
  lemma FirstUnderscore(a: string, b: string)
    requires '_' !in a
    ensures (a + "_" + b)[|a|] == '_'
    ensures forall i :: 0 <= i < |a| ==> (a + "_" + b)[i] != '_'
  {
    forall i | 0 <= i < |a|
      ensures (a + "_" + b)[i] != '_'
    {
      assert (a + "_" + b)[i] == a[i];
    }
  }

  lemma PathRegroup(stem: string, e: string)
    ensures stem + "/Solution" + e == (stem + "/") + ("Solution" + e)
  {
  }

  /** The header and comment delimiter of the dump: a shebang and `#` for python and ruby, nothing and `//` otherwise. */
  lemma DumpDialect(id: int, key: string, lang: string, ext: string -> string)
    ensures var pr := ProfileFor(id, key, lang, ext);
            && (IsScript(lang) ==> pr.header == "#!/usr/bin/env " + lang + "\n#\n" && pr.delimiter == "#")
            && (!IsScript(lang) ==> pr.header == "" && pr.delimiter == "//")
            && (pr.library != "" <==> lang == "java")
  {
  }

  /** Every dump starts with its header and then the line `<delim> [<id>] <name>`. */
  lemma DumpStartsWithTitle(p: Problem, pr: Profile, description: string, code: string, fixed2: real -> string)
    ensures pr.header + pr.delimiter + " [" + Decimal(p.id) + "] " + p.name + "\n"
         <= DumpContent(p, pr, description, code, fixed2)
  {
    var ps := DumpPieces(p, pr, description, code, fixed2);
    var title := TitleLine(pr.delimiter, p);
    ConcatSplit(ps, 2);
    assert ps[..2] == [pr.header, title];
    ConcatPair(pr.header, title);
    PrefixOfAppend(pr.header + title, Concat(ps[2..]));
    TitleAssoc(pr.header, pr.delimiter, Decimal(p.id), p.name);
  }

  lemma ConcatPair(a: string, b: string)
    ensures Concat([a, b]) == a + b
  {
    assert [a, b][1..] == [b];
    assert [b][1..] == [];
    assert Concat([b]) == b + Concat([]);
    assert b + "" == b;
  }

  lemma PrefixOfAppend(a: string, b: string)
    ensures a <= a + b
  {
    assert (a + b)[..|a|] == a;
  }

  // The header followed by the title line, regrouped.
  lemma TitleAssoc(header: string, delim: string, id: string, name: string)
    ensures header + delim + " [" + id + "] " + name + "\n"
         == header + (delim + " " + ("[" + id + "] " + name) + "\n")
  {
  }

  /** `s` inside `x` is inside `a + x + b`. */
  lemma ContainsWithin(a: string, x: string, b: string, s: string)
    requires Contains(x, s)
    ensures Contains(a + x + b, s)
  {
    var i :| 0 <= i <= |x| && s <= x[i..];
    assert x[i..] <= (a + x + b)[|a| + i..];
  }

  lemma ContainsMiddle(a: string, s: string, b: string)
    ensures Contains(a + s + b, s)
  {
    assert s <= (a + s + b)[|a|..];
  }

  /** Every piece of the dump occurs in it. */
  lemma ContainsPiece(ps: seq<string>, k: nat, s: string)
    requires k < |ps| && Contains(ps[k], s)
    ensures Contains(Concat(ps), s)
  {
    ConcatSplit(ps, k);
    ConcatSplit(ps[k..], 1);
    assert ps[k..][..1] == [ps[k]];
    assert Concat(ps) == Concat(ps[..k]) + ps[k] + Concat(ps[k..][1..]);
    ContainsWithin(Concat(ps[..k]), ps[k], Concat(ps[k..][1..]), s);
  }

  /** The dump names the problem as `[<id>] <name>` and gives its link. */
  lemma DumpMentionsProblem(p: Problem, pr: Profile, description: string, code: string, fixed2: real -> string)
    ensures var c := DumpContent(p, pr, description, code, fixed2);
            Contains(c, "[" + Decimal(p.id) + "] " + p.name) && Contains(c, p.link)
  {
    var ps := DumpPieces(p, pr, description, code, fixed2);
    var d := pr.delimiter;
    ContainsMiddle(d + " ", Title(p), "\n");
    ContainsPiece(ps, 1, Title(p));
    assert LinkLines(d, p) == d + " " + p.link + ("\n" + d + "\n");
    ContainsMiddle(d + " ", p.link, "\n" + d + "\n");
    ContainsPiece(ps, 2, p.link);
  }

  lemma ConcatThree(a: string, b: string, c: string)
    ensures Concat([a, b, c]) == a + (b + c)
  {
    assert [a, b, c][1..] == [b, c];
    assert [b, c][1..] == [c];
    assert [c][1..] == [];
    assert Concat([c]) == c;
    assert Concat([b, c]) == b + c;
  }

  lemma EndsWithAppend(a: string, b: string)
    ensures EndsWith(a + b, b)
  {
    assert (a + b)[|a + b| - |b|..] == b;
  }

  lemma EndsWithSuffix(c: string, a: string, b: string)
    requires EndsWith(c, a + b)
    ensures EndsWith(c, b)
  {
    assert (a + b)[|a|..] == b;
    assert c[|c| - |b|..] == c[|c| - |a + b|..][|a|..];
  }

  /** Every dump ends with the space-complexity line, the library lines and the cleaned code. */
  lemma DumpTail(p: Problem, pr: Profile, description: string, code: string, fixed2: real -> string)
    ensures EndsWith(DumpContent(p, pr, description, code, fixed2),
                     SpaceLine(pr.delimiter) + (LibraryLines(pr.library) + CleanCode(code)))
  {
    var ps := DumpPieces(p, pr, description, code, fixed2);
    ConcatSplit(ps, 8);
    assert ps[8..] == [SpaceLine(pr.delimiter), LibraryLines(pr.library), CleanCode(code)];
    ConcatThree(SpaceLine(pr.delimiter), LibraryLines(pr.library), CleanCode(code));
    EndsWithAppend(Concat(ps[..8]), Concat(ps[8..]));
  }

  /**
    The dump ends with the starter code stripped of `\r` and `\t`; for Java
    the import line and a blank line come right before it, for every other
    language the space-complexity placeholder does.
   */
  lemma DumpEndsWithCode(p: Problem, lang: string, description: string, code: string, h: Helpers)
    ensures var pr := ProfileFor(p.id, p.key, lang, h.langToExt);
            var c := DumpContent(p, pr, description, code, h.fixed2);
            && EndsWith(c, CleanCode(code))
            && (lang == "java" ==> EndsWith(c, "import java.util.*;\n\n" + CleanCode(code)))
            && (lang != "java" ==> EndsWith(c, " Space Complexity: O()\n\n\n" + CleanCode(code)))
  {
    var pr := ProfileFor(p.id, p.key, lang, h.langToExt);
    assert pr.library == if lang == "java" then JavaLibrary else "";
    DumpEndsWithLibrary(p, pr, description, code, h.fixed2);
  }

  lemma DumpEndsWithLibrary(p: Problem, pr: Profile, description: string, code: string, fixed2: real -> string)
    requires pr.library == "" || pr.library == JavaLibrary
    ensures var c := DumpContent(p, pr, description, code, fixed2);
            && EndsWith(c, CleanCode(code))
            && (pr.library == JavaLibrary ==> EndsWith(c, "import java.util.*;\n\n" + CleanCode(code)))
            && (pr.library == "" ==> EndsWith(c, " Space Complexity: O()\n\n\n" + CleanCode(code)))
  {
    var c := DumpContent(p, pr, description, code, fixed2);
    var clean := CleanCode(code);
    var d := pr.delimiter;
    DumpTail(p, pr, description, code, fixed2);
    EndsWithSuffix(c, SpaceLine(d), LibraryLines(pr.library) + clean);
    if pr.library == JavaLibrary {
      assert LibraryLines(pr.library) == "import java.util.*;\n\n";
    } else {
      assert LibraryLines(pr.library) + clean == clean;
      SpaceTail(d, clean);
      EndsWithSuffix(c, d, " Space Complexity: O()\n\n\n" + clean);
    }
    EndsWithSuffix(c, LibraryLines(pr.library), clean);
  }

  lemma SpaceTail(d: string, clean: string)
    ensures SpaceLine(d) + clean == d + (" Space Complexity: O()\n\n\n" + clean)
  {
  }

  /**
    For python and ruby the description block is a blank line and then the
    description with every line commented out by `# `.
   */
  lemma ScriptDescriptionLines(id: int, key: string, lang: string, ext: string -> string, description: string)
    requires IsScript(lang)
    ensures SplitLines(DescBlock(ProfileFor(id, key, lang, ext), description))
         == [""] + Prefixed(SplitLines(description), "# ")
  {
    var pr := ProfileFor(id, key, lang, ext);
    assert pr.style == LineComments && pr.delimiter == "#";
    LineCommentLines(pr.delimiter, description);
  }

  lemma LineCommentLines(delim: string, description: string)
    requires delim == "#"
    ensures SplitLines("\n" + "# " + Join(SplitLines(description), "\n" + delim + " "))
         == [""] + Prefixed(SplitLines(description), "# ")
  {
    var lines := SplitLines(description);
    var pre := "# ";
    var joined := Join(lines, "\n" + pre);
    assert "\n" + delim + " " == "\n" + pre;
    calc {
      SplitLines("\n" + pre + joined);
      { StringRegroup3("\n", pre, joined); }
      SplitLines("\n" + (pre + joined));
      { LeadingBreak(pre + joined); }
      [""] + SplitLines(pre + joined);
      { CommentedLines(pre, pre, description); PrefixedCons(lines, pre); }
      [""] + Prefixed(lines, pre);
    }
  }

  lemma StringRegroup3(a: string, b: string, c: string)
    ensures a + b + c == a + (b + c)
  {
  }

  lemma LeadingBreak(body: string)
    ensures SplitLines("\n" + body) == [""] + SplitLines(body)
  {
    assert "\n" + body == "" + "\n" + body;
    SplitAround("", body);
  }

  // For Java the description block is a blank line, then the block-comment
  // opener before the first line of the description, " * " before each
  // further line, and a line closing the block comment.
  lemma JavaDescriptionLines(id: int, key: string, ext: string -> string, description: string)
    ensures (var lines := SplitLines(description);
             SplitLines(DescBlock(ProfileFor(id, key, "java", ext), description))
             == ["", "/* " + lines[0]] + Prefixed(lines[1..], " * ") + [" */", ""])
  {
    var pr := ProfileFor(id, key, "java", ext);
    assert pr.style == BlockComment;
    BlockCommentLines(description);
  }

  lemma BlockCommentLines(description: string)
    ensures (var lines := SplitLines(description);
             SplitLines("\n" + "/* " + Join(lines, "\n" + " * ") + "\n */\n")
             == ["", "/* " + lines[0]] + Prefixed(lines[1..], " * ") + [" */", ""])
  {
    var lines := SplitLines(description);
    var joined := Join(lines, "\n" + " * ");
    var body := "/* " + joined;
    var rest := Prefixed(lines[1..], " * ");
    calc {
      SplitLines("\n" + "/* " + joined + "\n */\n");
      { StringRegroup("\n", "/* ", joined, "\n */\n"); }
      SplitLines("\n" + body + "\n */\n");
      { BlockAround(body); }
      [""] + SplitLines(body) + [" */", ""];
      { CommentedLines("/* ", " * ", description); }
      [""] + (["/* " + lines[0]] + rest) + [" */", ""];
      { LinesRegroup("", "/* " + lines[0], rest, [" */", ""]); }
      ["", "/* " + lines[0]] + rest + [" */", ""];
    }
  }

  lemma StringRegroup(a: string, b: string, c: string, d: string)
    ensures a + b + c + d == a + (b + c) + d
  {
  }

  lemma LinesRegroup(a: string, b: string, ps: seq<string>, tail: seq<string>)
    ensures [a] + ([b] + ps) + tail == [a, b] + ps + tail
  {
  }

  // A blank line, the lines of `body`, the closing-comment line and a final empty line.
  lemma BlockAround(body: string)
    ensures SplitLines("\n" + body + "\n */\n") == [""] + SplitLines(body) + [" */", ""]
  {
    var bodyLines := SplitLines(body);
    calc {
      SplitLines("\n" + body + "\n */\n");
      { BlockShape(body); }
      SplitLines("" + "\n" + (body + "\n" + " */\n"));
      { SplitAround("", body + "\n" + " */\n"); }
      [""] + SplitLines(body + "\n" + " */\n");
      { JoinSplit(body); }
      [""] + SplitLines(Join(bodyLines, "\n") + "\n" + " */\n");
      { AppendLines(bodyLines, " */\n"); }
      [""] + (bodyLines + SplitLines(" */\n"));
      { CloseLines(); }
      [""] + (bodyLines + [" */", ""]);
      { LinesRegroup3([""], bodyLines, [" */", ""]); }
      [""] + bodyLines + [" */", ""];
    }
  }

  lemma LinesRegroup3(a: seq<string>, b: seq<string>, c: seq<string>)
    ensures a + (b + c) == a + b + c
  {
  }

  lemma CloseLines()
    ensures SplitLines(" */\n") == [" */", ""]
  {
    assert " */\n" == " */" + "\n" + "";
    SplitAround(" */", "");
  }

  lemma BlockShape(body: string)
    ensures "\n" + body + "\n */\n" == "" + "\n" + (body + "\n" + " */\n")
  {
  }

  /** Splitting `Join(lines) + "\n" + b` gives the lines followed by the lines of `b`. */
  lemma {:induction false} AppendLines(lines: seq<string>, b: string)
    requires |lines| >= 1
    requires forall i :: 0 <= i < |lines| ==> '\n' !in lines[i]
    ensures SplitLines(Join(lines, "\n") + "\n" + b) == lines + SplitLines(b)
  {
    if |lines| == 1 {
      SplitAround(lines[0], b);
    } else {
      var tail := lines[1..];
      var rest := Join(tail, "\n");
      assert forall i :: 0 <= i < |tail| ==> tail[i] == lines[i + 1];
      AppendLines(tail, b);
      calc {
        SplitLines(Join(lines, "\n") + "\n" + b);
        { assert Join(lines, "\n") == lines[0] + "\n" + rest; }
        SplitLines(lines[0] + "\n" + rest + "\n" + b);
        { JoinAssoc(lines[0], rest, b); }
        SplitLines(lines[0] + "\n" + (rest + "\n" + b));
        { SplitAround(lines[0], rest + "\n" + b); }
        [lines[0]] + SplitLines(rest + "\n" + b);
        [lines[0]] + (tail + SplitLines(b));
        { assert [lines[0]] + tail == lines; }
        lines + SplitLines(b);
      }
    }
  }

  // Regrouping a first line, the joined rest and a continuation.
  lemma JoinAssoc(a: string, rest: string, b: string)
    ensures a + "\n" + rest + "\n" + b == a + "\n" + (rest + "\n" + b)
  {
  }

  /** For any language other than python, ruby and java the description is left out of the dump. */
  lemma OtherOmitsDescription(p: Problem, lang: string, d1: string, d2: string, code: string, h: Helpers)
    requires !IsScript(lang) && lang != "java"
    ensures var pr := ProfileFor(p.id, p.key, lang, h.langToExt);
            && DescBlock(pr, d1) == ""
            && DumpContent(p, pr, d1, code, h.fixed2) == DumpContent(p, pr, d2, code, h.fixed2)
  {
  }
}
