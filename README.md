# The `show` command of leetcode-cli, modelled in Dafny

`leetcode show <keyword> [--gen] [--dump] [--lang <lang>]` looks up a
problem, prints a five-line summary, and then either prints the problem's
description or dumps it into an annotated source file. With `--gen` it first
writes the starter code of the chosen language to `<key><ext>`. With
`--dump` it writes `<id>_<key>...`, a file that holds these pieces in order:
a header (a shebang for python and ruby, empty otherwise), the problem's
metadata as comments, the commented description (for python, ruby and java
only; other languages get none), two complexity placeholders, an import
line (java only), and the cleaned starter code.

The model has three modules:

- `Text` (text.dfy): the string operations the handler uses, each with its
  laws.
  - Removal of characters (`replace(/[\r]/g, '')`, `replace(/[\r\t]/g, '')`).
  - The description clean-up: `\r` removed, runs of newlines collapsed.
  - `split('\n')` and `join(sep)`.
  - Concatenation of pieces.
  - `%d` rendering of integers.
- `Show` (show.dfy): the data (problem, template, arguments, lookup result,
  effect state) and the handler as a function of them. It decides which
  template is chosen, where the dump goes and how it is commented
  (`ProfileFor`), what the dump holds (`DumpContent`), and the whole effect
  of one run (`HandlerEffect`: files, directories and console lines). It also
  holds the lemmas about the handler's behaviour.
- `Handler` (handler.dfy): the handler as it runs.
  - A `Host` object holds the files, directories and console lines. Its
    methods are `console.log`, `fs.existsSync`, `fs.mkdirSync`,
    `fs.writeFileSync` and `fs.appendFileSync`.
  - `HandleShow` takes the same early returns as the source, reassigns the
    locals `f`, `delimiter`, `header` and `library` as the source does, and
    writes the dump file by one write and then successive appends.
  - It is proved to end in exactly the state `Show.HandlerEffect` describes.

Some collaborators are opaque function-valued fields of `Show.Helpers`:
the language-to-extension table (`h.langToExt`), the 77-column word wrapper
and the `%.2f` formatter. The problem lookup is an input value (`Lookup`):
either the error handed to the callback or the problem.

## Model

| member | source | states |
|---|---|---|
| Show.FindTemplate | lib/commands/show.js:41-43 | the result is some template exactly when one has `value == lang`; a found template is in the list and has that language; it is the first such template |
| Text.Remove | lib/commands/show.js:59 | the result is no longer than the input, holds none of the removed characters, and every character it holds comes from the input |
| Text.RemoveCounts | lib/commands/show.js:59 | removal keeps every other character with its multiplicity and drops every removed one |
| Text.Collapse | lib/commands/show.js:59 | the result keeps the first character, only holds characters of the input, and has no two adjacent newlines |
| Text.CollapseShrinksRun | lib/commands/show.js:59 | two adjacent newlines anywhere collapse exactly like one newline in the same place; with `CollapseIdle` this fixes every run of newlines to one newline at its position |
| Text.CollapseKeepsText | lib/commands/show.js:59 | collapsing newline runs leaves the non-newline text unchanged, in order |
| Text.CollapseKeepsBreaks | lib/commands/show.js:59 | the collapsed text has a newline if and only if the input has one |
| Text.CollapseIdle | lib/commands/show.js:59 | text without two consecutive newlines is left unchanged by collapsing |
| Text.Normalize | lib/commands/show.js:59 | the cleaned description holds no `\r` and no two consecutive newlines |
| Text.NormalizeShrinksRun | lib/commands/show.js:59 | a blank line anywhere in the description cleans up to a single line break in the same place |
| Text.NormalizeDropsCR | lib/commands/show.js:59 | a `\r` anywhere in the description is dropped before newline runs are collapsed, so `\r\n` line ends clean up like `\n` |
| Text.NormalizeKeepsText | lib/commands/show.js:59 | with newlines set aside, the cleaned description is the input without `\r` and `\n`, in the same order |
| Text.NormalizeIdempotent | lib/commands/show.js:59 | cleaning twice equals cleaning once |
| Text.NormalizeFixedPoint | lib/commands/show.js:59 | cleaning leaves a text unchanged if and only if it has no `\r` and no blank line |
| Text.Join | lib/commands/show.js:93 | `join(sep)` starts with the first part, and with two or more parts the first part is followed by `sep` |
| Text.SplitLines | lib/commands/show.js:93 | `split('\n')` yields at least one part and no part holds a newline |
| Text.JoinSplit | lib/commands/show.js:93 | joining the split lines with `\n` gives back the text |
| Text.SplitJoin | lib/commands/show.js:93 | splitting lines joined with `\n` gives back the lines |
| Text.CommentedLines | lib/commands/show.js:96 | `first + split.join('\n' + pre)`, read back line by line, is the first line behind `first` and every other line behind `pre` |
| Text.Decimal | lib/commands/show.js:53-57 | the `%d` text of an integer is a non-empty string of digits, with a leading minus sign exactly when the integer is negative |
| Text.DigitsRoundTrip | lib/commands/show.js:56 | reading back the `%d` digits of a natural number gives the number |
| Text.DecimalInjective | lib/commands/show.js:69 | two integers with the same `%d` rendering are equal |
| Show.Summary | lib/commands/show.js:53-57 | the summary is five lines: the title with `[<id>] <name>`, a tab and the file note; the link; exactly `* <level> (<percent to two places>%)`; exactly the accepted count; the submissions count; the first, second and fifth lines end with a newline |
| Show.Description | lib/commands/show.js:59 | the printed description is the wrapped form of a text with no `\r` and no blank line, holding the original's characters other than `\r` and `\n` in order |
| Show.ProfileFor | lib/commands/show.js:69-85 | the dump path starts with `<id>_<key>`; there is a directory, always `<id>_<key>`, exactly for java, and an import line exactly for java; line comments and the `#` delimiter exactly for python and ruby; a block comment exactly for java |
| Show.DumpPieces | lib/commands/show.js:86-103 | eleven pieces, one per write or append, from the header to the cleaned code; the description piece is empty exactly when the language gets none, the import piece exactly when there is no library line |
| Show.DumpContent | lib/commands/show.js:86-103 | the dump starts with the header and ends with the cleaned starter code |
| Show.DumpEffect | lib/commands/show.js:79-103 | the dump prints nothing, adds exactly the dump path to the files, and adds at most the directory `<id>_<key>` |
| Show.HandlerEffect | lib/commands/show.js:35-109 | the handler only adds console lines, files and directories; it prints one line on a failed lookup or an unknown `--gen` language, five summary lines with a successful dump, and six lines otherwise |
| Show.AfterSummary | lib/commands/show.js:59-107 | after the summary, one more line is printed (the description or the unknown-language error) unless a dump is written, and nothing is removed |
| Show.CleanCode | lib/commands/show.js:103 | the code written to the dump holds no `\r` and no tab |
| Show.LookupFailureReported | lib/commands/show.js:37 | a failed lookup prints `ERROR: <e>` and changes nothing else |
| Show.GenUnknownLanguage | lib/commands/show.js:44-46 | `--gen` with no template for the language prints only the unknown-language error: no summary, no file, no directory |
| Show.GenWritesTemplate | lib/commands/show.js:48-53 | `--gen` without `--dump`, with a matching template, writes exactly one file, `key + ext`, holding the first matching template's code verbatim; the summary carries `(File: <path>)`; the description follows |
| Show.TwoSumExample | lib/commands/show.js:48-49 | problem 1 `two-sum` with a python template: `--gen` writes `two-sum.py` holding exactly the template code, and its dump path is `1_two-sum.py` |
| Show.PlainShow | lib/commands/show.js:48-60 | a plain `show` (neither `--gen` nor `--dump`) prints the summary without a file note and then the description, and changes no file or directory |
| Show.DumpOrDescription | lib/commands/show.js:61-107 | after the summary, without `--dump` only the description is printed; with `--dump` the description is never printed, and the unknown-language error is printed only when no template matches |
| Show.DumpUnknownLanguage | lib/commands/show.js:65-67 | `--dump` without `--gen`, with no template for the language prints the summary and the error, and writes no file or directory |
| Show.DumpWritesFile | lib/commands/show.js:61-104 | `--dump` with a matching template: the `--gen` file and the summary come first, then the dump effect |
| Show.DumpEffectWrites | lib/commands/show.js:79-86 | the dump file gets `DumpContent`, every other file is unchanged and no file appears besides it; the `<id>_<key>` directory is created exactly for java when nothing of that name exists; nothing is printed |
| Show.DumpPathByLanguage | lib/commands/show.js:69-85 | python and ruby dump to `<id>_<key><ext>`, java to `<id>_<key>/Solution<ext>` inside the directory `<id>_<key>`, any other language to `<id>_<key>` with no extension and no directory |
| Show.DumpPathShape | lib/commands/show.js:69-83 | every dump path starts with `<id>_<key>`, and a created directory is a path prefix of the dump file |
| Show.StemDeterminesId | lib/commands/show.js:69 | the stem `<id>_<key>` determines both the id and the key, so different problems never share a stem |
| Show.DumpDialect | lib/commands/show.js:70-85 | python and ruby get the header `#!/usr/bin/env <lang>\n#\n` and delimiter `#`; other languages get no header and `//`; there is an import line exactly for java |
| Show.DumpStartsWithTitle | lib/commands/show.js:86-87 | every dump begins with the header followed by `<delim> [<id>] <name>\n` |
| Show.DumpMentionsProblem | lib/commands/show.js:87-88 | every dump contains `[<id>] <name>` and the problem's link |
| Show.ScriptDescriptionLines | lib/commands/show.js:92-94 | for python and ruby the description block is a blank line followed by every description line behind `# ` |
| Show.JavaDescriptionLines | lib/commands/show.js:95-97 | for java the description block is a blank line, `/* ` before the first description line, ` * ` before each further one, then ` */` and a final newline |
| Show.OtherOmitsDescription | lib/commands/show.js:92-97 | for every other language the description block is empty and the dump does not depend on the description |
| Show.DumpTail | lib/commands/show.js:99-103 | every dump ends with the space-complexity line, the library lines and the cleaned code |
| Show.DumpEndsWithCode | lib/commands/show.js:98-103 | every dump ends with the starter code stripped of `\r` and tabs; for java `import java.util.*;\n\n` comes right before it, otherwise the space-complexity placeholder does |
| Handler.Host.Exists | lib/commands/show.js:80 | `fs.existsSync` holds for every known file and directory, and for nothing else |
| Handler.Host.Log | lib/commands/show.js:53 | `console.log` adds exactly one console line and touches no file or directory |
| Handler.Host.MkDir | lib/commands/show.js:81 | `fs.mkdirSync` adds the directory and nothing else |
| Handler.Host.WriteFile | lib/commands/show.js:86 | `fs.writeFileSync` sets the file to the data and nothing else |
| Handler.Host.AppendFile | lib/commands/show.js:87 | `fs.appendFileSync` extends the file, or a missing one starting empty, by the data and nothing else |
| Handler.LogSummary | lib/commands/show.js:53-57 | the five summary `console.log` calls add exactly the lines of `Summary` |
| Handler.DumpTarget | lib/commands/show.js:69-85 | the locals `f`, `delimiter`, `header` and `library` end equal to the language's profile, and the java directory is created exactly as `DumpEffect` says |
| Handler.WriteDumpFile | lib/commands/show.js:86-103 | the write and the appends leave the dump file holding exactly `DumpContent`, with no other file, directory or console line changed |
| Handler.WriteMetadata | lib/commands/show.js:87-91 | the five metadata appends extend the file by the title, link, level, accepted and submissions lines |
| Handler.WriteDescription | lib/commands/show.js:92-97 | the description append adds the commented description for python, ruby and java and nothing otherwise |
| Handler.WriteTail | lib/commands/show.js:98-103 | the last appends add the complexity placeholders, the import line only when there is one, and the cleaned code |
| Handler.Dump | lib/commands/show.js:69-103 | the dump branch ends in the state `DumpEffect` describes |
| Handler.HandleShow | lib/commands/show.js:35-109 | the handler, run step by step with its early returns, ends in exactly the files, directories and console lines of `HandlerEffect` |

## Left out

- `core.getProblem` and its asynchronous callback are not modelled. The
  network or cache lookup lives in a module that is not part of this model.
  Its outcome is the input `Lookup`: an error message or the problem.
- `console.log('ERROR:', e)` prints one line, `ERROR: <e>`. The way Node
  formats an error object is not modelled: the error is given as its text.
- The `chalk` styling of the file note (line 50) and of the link (line 54)
  is not modelled. The console lines hold the plain text.
- `console.log` ends every line with a newline. A console line is modelled
  as the string passed to it.
- The `wordwrap(77)` wrapper, `h.langToExt` and the `%.2f` percent
  formatting are opaque functions (`Helpers.wrap`, `Helpers.langToExt`,
  `Helpers.fixed2`). They are foreign code or floating-point formatting, so
  nothing is proved about what they produce.
- The yargs `builder` declaration and the `config.LANG` default of `--lang`
  are command-line configuration. `Args.lang` is the already-defaulted
  value.
- Filesystem failures are not modelled: every write, append and `mkdir` is
  taken to succeed. Examples are a dump path whose parent is missing or is
  a file, because `existsSync` found a file named `<id>_<key>` and so no
  directory was made, a path that names a directory, and permission errors.
- Show.DumpEffectWrites: `fs.existsSync` is modelled as "a file or a
  directory of that name is known". Symbolic links and files that appear
  outside the model are not represented. The state does not tie a file to
  its parent directories either: in a state that holds the file
  `1_two-sum/Solution.java` but not the directory `1_two-sum`, the model
  creates the directory, whereas on a real disk the directory exists and
  `existsSync` skips `mkdirSync`.
- Text.Decimal: ids and counts are unbounded integers, whereas in the
  source they are JavaScript numbers. The rendering agrees with
  `problem.id + "_"` and with `%d` only for safe integers (magnitude below
  2^53). From 1e21 up, `number + ""` switches to exponent notation, while
  `%d` goes through `parseInt`. The model takes every id and count to be a
  safe integer.
- Text.Normalize: strings are sequences of Dafny characters. JavaScript's
  UTF-16 code units and surrogate pairs are not distinguished. This is
  harmless here, because only single-unit characters are tested or removed,
  and strings are compared for equality.
