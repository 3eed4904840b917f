/**
  The handler of the `show` command, written as it runs: console lines are
  logged one at a time, and the dump file is created by one write followed
  by successive appends. Each method is proved to end in the state that the
  functions of module `Show` describe.
 */
module Handler {
  import opened Text
  import opened Show

  /** The part of the outside world the command touches. */
  class Host {
    var files: map<string, string>
    var dirs: set<string>
    var out: seq<string>

    function Snapshot(): State
      reads this
    {
      State(files, dirs, out)
    }

    constructor (s: State)
      ensures Snapshot() == s
    {
      files, dirs, out := s.files, s.dirs, s.out;
    }

    /** `console.log(line)`. */
    method Log(line: string)
      modifies this
      ensures files == old(files) && dirs == old(dirs)
      ensures out == old(out) + [line]
    {
      out := out + [line];
    }

    /** `fs.existsSync(path)`: a file or a directory is there. */
    predicate Exists(path: string): (b: bool)
      reads this
      ensures path in files ==> b
      ensures path in dirs ==> b
      ensures b ==> path in files || path in dirs
    {
      path in files || path in dirs
    }

    /** `fs.mkdirSync(path)`. */
    method MkDir(path: string)
      modifies this
      ensures files == old(files) && out == old(out)
      ensures dirs == old(dirs) + {path}
    {
      dirs := dirs + {path};
    }

    /** `fs.writeFileSync(path, data)`: create or overwrite. */
    method WriteFile(path: string, data: string)
      modifies this
      ensures dirs == old(dirs) && out == old(out)
      ensures files == old(files)[path := data]
    {
      files := files[path := data];
    }

    /** `fs.appendFileSync(path, data)`: add to the end, creating the file if needed. */
    method AppendFile(path: string, data: string)
      modifies this
      ensures dirs == old(dirs) && out == old(out)
      ensures files == old(files)[path := (if path in old(files) then old(files)[path] else "") + data]
    {
      var before := if path in files then files[path] else "";
      files := files[path := before + data];
    }
  }

  /**
    The `--dump` branch once a template is found: choose where and how to
    write, then write the file piece by piece.
   */
  method Dump(host: Host, p: Problem, lang: string, t: Template, description: string, h: Helpers)
    modifies host
    ensures host.Snapshot() == DumpEffect(old(host.Snapshot()), p, lang, t, description, h)
  {
    var f, delimiter, header, library := DumpTarget(host, p, lang, h);
    WriteDumpFile(host, f, delimiter, header, library, lang, p, description, t.defaultCode, h.fixed2,
                  ProfileFor(p.id, p.key, lang, h.langToExt));
  }

  /**
    The path, delimiter, header and library line for the language; for Java
    the directory `<id>_<key>` is created unless something by that name exists.
   */
  method DumpTarget(host: Host, p: Problem, lang: string, h: Helpers)
    returns (f: string, delimiter: string, header: string, library: string)
    modifies host
    ensures var pr := ProfileFor(p.id, p.key, lang, h.langToExt);
            && f == pr.path && delimiter == pr.delimiter && header == pr.header && library == pr.library
            && host.files == old(host.files) && host.out == old(host.out)
            && host.dirs == DumpEffect(old(host.Snapshot()), p, lang, Template("", ""), "", h).dirs
  {
    f := Decimal(p.id) + "_" + p.key;
    delimiter := "//";
    header := "";
    library := "";
    if lang == "python" || lang == "ruby" {
      f := f + h.langToExt(lang);
      header := "#!/usr/bin/env " + lang + "\n#\n";
      delimiter := "#";
    } else if lang == "java" {
      if !host.Exists(f) {
        host.MkDir(f);
      }
      f := f + "/" + "Solution" + h.langToExt(lang);
      library := JavaLibrary;
    }
  }

  /**
    Writes the header, then appends the metadata comments, the commented
    description (python and ruby: line comments; java: a block comment;
    otherwise nothing), the complexity placeholders, the library line if
    there is one, and the cleaned starter code.
   */
  method WriteDumpFile(host: Host, f: string, delimiter: string, header: string, library: string,
                       lang: string, p: Problem, description: string, code: string, fixed2: real -> string,
                       ghost pr: Profile)
    requires pr.path == f && pr.delimiter == delimiter && pr.header == header && pr.library == library
    requires pr.style == if IsScript(lang) then LineComments else if lang == "java" then BlockComment else Omitted
    modifies host
    ensures host.dirs == old(host.dirs) && host.out == old(host.out)
    ensures host.files == old(host.files)[f := DumpContent(p, pr, description, code, fixed2)]
  {
    ghost var base := host.files;
    ghost var pieces := DumpPieces(p, pr, description, code, fixed2);
    host.WriteFile(f, header);
    assert pieces[..1] == [header];
    assert Concat(pieces[..1]) == header by {
      ConcatSnoc([], header);
    }
    WriteMetadata(host, f, base, pieces, delimiter, p, fixed2);
    WriteDescription(host, f, base, pieces, delimiter, lang, description, pr);
    WriteTail(host, f, base, pieces, delimiter, library, code);
    assert pieces[..11] == pieces;
  }

  /** Appends the title, link, level and counts lines, each behind the delimiter. */
  method WriteMetadata(host: Host, f: string, ghost base: map<string, string>, ghost pieces: seq<string>,
                       delimiter: string, p: Problem, fixed2: real -> string)
    requires |pieces| == 11
    requires pieces[1] == TitleLine(delimiter, p) && pieces[2] == LinkLines(delimiter, p)
    requires pieces[3] == LevelLine(delimiter, p, fixed2) && pieces[4] == AcceptedLine(delimiter, p)
    requires pieces[5] == SubmissionsLine(delimiter, p)
    requires host.files == base[f := Concat(pieces[..1])]
    modifies host
    ensures host.dirs == old(host.dirs) && host.out == old(host.out)
    ensures host.files == base[f := Concat(pieces[..6])]
  {
    AppendPiece(host, f, base, pieces, 1, TitleLine(delimiter, p));
    AppendPiece(host, f, base, pieces, 2, LinkLines(delimiter, p));
    AppendPiece(host, f, base, pieces, 3, LevelLine(delimiter, p, fixed2));
    AppendPiece(host, f, base, pieces, 4, AcceptedLine(delimiter, p));
    AppendPiece(host, f, base, pieces, 5, SubmissionsLine(delimiter, p));
  }

  /**
    Appends the description: as `#`-style line comments for python and ruby,
    as a `/* … */` block comment for java, and not at all otherwise.
   */
  method WriteDescription(host: Host, f: string, ghost base: map<string, string>, ghost pieces: seq<string>,
                          delimiter: string, lang: string, description: string, ghost pr: Profile)
    requires |pieces| == 11 && pieces[6] == DescBlock(pr, description) && pr.delimiter == delimiter
    requires pr.style == if IsScript(lang) then LineComments else if lang == "java" then BlockComment else Omitted
    requires host.files == base[f := Concat(pieces[..6])]
    modifies host
    ensures host.dirs == old(host.dirs) && host.out == old(host.out)
    ensures host.files == base[f := Concat(pieces[..7])]
  {
    if lang == "python" || lang == "ruby" {
      AppendPiece(host, f, base, pieces, 6, "\n" + "# " + Join(SplitLines(description), "\n" + delimiter + " "));
    } else if lang == "java" {
      AppendPiece(host, f, base, pieces, 6, "\n" + "/* " + Join(SplitLines(description), "\n" + " * ") + "\n */\n");
    } else {
      SkipEmpty(pieces, 6);
    }
  }

  /** Appends the complexity placeholders, the library line if any, and the cleaned code. */
  method WriteTail(host: Host, f: string, ghost base: map<string, string>, ghost pieces: seq<string>,
                   delimiter: string, library: string, code: string)
    requires |pieces| == 11
    requires pieces[7] == TimeLine(delimiter) && pieces[8] == SpaceLine(delimiter)
    requires pieces[9] == LibraryLines(library) && pieces[10] == CleanCode(code)
    requires host.files == base[f := Concat(pieces[..7])]
    modifies host
    ensures host.dirs == old(host.dirs) && host.out == old(host.out)
    ensures host.files == base[f := Concat(pieces[..11])]
  {
    AppendPiece(host, f, base, pieces, 7, TimeLine(delimiter));
    AppendPiece(host, f, base, pieces, 8, SpaceLine(delimiter));
    if library != "" {
      AppendPiece(host, f, base, pieces, 9, library + "\n\n");
    } else {
      SkipEmpty(pieces, 9);
    }
    AppendPiece(host, f, base, pieces, 10, CleanCode(code));
  }

  /** One `appendFileSync` of the next piece to a file that holds the pieces before it. */
  method AppendPiece(host: Host, f: string, ghost base: map<string, string>, ghost pieces: seq<string>, ghost k: nat, x: string)
    requires k < |pieces| && x == pieces[k]
    requires host.files == base[f := Concat(pieces[..k])]
    modifies host
    ensures host.dirs == old(host.dirs) && host.out == old(host.out)
    ensures host.files == base[f := Concat(pieces[..k + 1])]
  {
    host.AppendFile(f, x);
    ConcatSnoc(pieces[..k], x);
    assert pieces[..k] + [x] == pieces[..k + 1];
  }

  /** A piece the source does not append is empty, so the file already holds it. */
  lemma SkipEmpty(pieces: seq<string>, k: nat)
    requires k < |pieces| && pieces[k] == ""
    ensures Concat(pieces[..k + 1]) == Concat(pieces[..k])
  {
    ConcatSnoc(pieces[..k], "");
    assert pieces[..k] + [""] == pieces[..k + 1];
  }

  /** The five summary lines, logged one `console.log` at a time. */
  method LogSummary(host: Host, p: Problem, msg: string, fixed2: real -> string)
    modifies host
    ensures host.files == old(host.files) && host.dirs == old(host.dirs)
    ensures host.out == old(host.out) + Summary(p, msg, fixed2)
  {
    host.Log(Title(p) + "\t" + msg + "\n");
    host.Log(p.link + "\n");
    host.Log("* " + p.level + " (" + fixed2(p.percent) + "%)");
    host.Log("* Total Accepted: " + Decimal(p.totalAC));
    host.Log("* Total Submissions: " + Decimal(p.totalSubmit) + "\n");
  }

  /**
    `cmd.handler`, run as the continuation of the problem lookup: report a
    lookup error; with `--gen` write the starter code (or stop at an unknown
    language); print the summary; then either dump the annotated file or
    print the description.
   */
  method HandleShow(host: Host, a: Args, res: Lookup, h: Helpers)
    modifies host
    ensures host.Snapshot() == HandlerEffect(a, res, h, old(host.Snapshot()))
  {
    match res
    case Failed(e) =>
      host.Log("ERROR: " + e);
    case Found(problem) =>
      var msg := "";
      if a.gen {
        var template := FindTemplate(problem.templates, a.lang);
        if template.None? {
          host.Log(UnknownLanguage(a.lang));
          return;
        }
        var f := problem.key + h.langToExt(a.lang);
        host.WriteFile(f, template.value.defaultCode);
        msg := FileNote(f);
      }
      LogSummary(host, problem, msg, h.fixed2);

      var description := h.wrap(Normalize(problem.desc));

      if a.dump {
        var template := FindTemplate(problem.templates, a.lang);
        if template.None? {
          host.Log(UnknownLanguage(a.lang));
          return;
        }
        Dump(host, problem, a.lang, template.value, description, h);
      } else {
        host.Log(description);
      }
  }
}
