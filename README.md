# GePeTo main-process core in Dafny

GePeTo is a desktop tool. It asks an external service for a summary of a web page, shows the summary, and exports it as a Markdown file. This project models the deterministic core of the Electron main process, `src/app.js`:

- **`text.dfy`, module `Text`**: the `Option` wrapper and the `startsWith` prefix test, shared by the other modules.
- **`lines.dfy`, module `Lines`**: models `summary.split("\n")` as `Split`. It also defines `Join`, its inverse, and `Render`, the stream content produced when each line is written as `"\n" + line`.
- **`format.dfy`, module `MarkdownFormat`**: models the export loop.
  - `Formatted` is the specification. It looks back one input line: a blank line goes before line *i* exactly when *i* > 0, line *i*−1 starts with `#` or `*`, and line *i* is non-empty.
  - `FormatLines` is the handler's `for` loop with its `jumpLine` flag. It is proved equal to `Formatted`.
  - The lemmas give the layout of the output, the bound on inserted lines, and idempotence.
- **`title.dfy`, module `ExportTitle`**: models the export file name. It takes the first line starting with `"# "` and applies the `replace` chain exactly as written: the first-occurrence string replace, the space-for-space regex replace, and the `[^a-zA-Z0-9-]` regex replace.
- **`coordinator.dfy`, module `Coordinator`**: the IPC handlers `toCredentials`, `toFilePath`, `toSummary` and `toExport`, plus the initial `dom-ready` sends. They are methods of the class `EventCoordinator`. Its fields are:
  - the stored API key;
  - the output folder;
  - the messages sent to the renderer;
  - the calls made to the summariser;
  - the files written.

  The outside world enters as parameters:
  - the writability probe (`fs.accessSync`);
  - URL parsing (`new URL`);
  - the summariser (`getSummary`);
  - `path.join`;
  - the clock-derived draft name.

The model follows the code at four points where it is easy to misread:
- `toSummary` sends `getSummary`'s resolved value unchanged on `fromSummary`, and only when that value is truthy. The error messages travel on that same channel as plain strings.
- An empty summary is not an empty line sequence. `split` returns `[""]`, so the exported file holds a single newline (`EmptySummaryExport`).
- The export handler always names the file after the summary's first `"# "` line. Without one it uses the draft name. It does not receive a file name from the renderer.
- Exported file names keep spaces. The comment at src/app.js:109 says spaces and special characters become "-", but line 110 turns every character outside [A-Za-z0-9-] into a space, and its `/ /g` replace puts a space back for a space. `FileTitle` models the code as written, so "# My notes" is exported as "My notes.md".

## Model

| member | source | states |
|---|---|---|
| Lines.Split | src/app.js:104 | splitting on newlines never yields an empty array |
| Lines.JoinSplit | src/app.js:104 | joining the split pieces with newlines gives the summary back |
| Lines.SplitNewlineFree | src/app.js:104 | no piece of a split holds a newline |
| Lines.SplitJoin | src/app.js:104 | splitting the newline join of newline-free pieces gives the pieces back |
| Lines.RenderAppend | src/app.js:123 | each `writeLine` call appends "\n" + line to what the stream already holds |
| Lines.RenderIsJoin | src/app.js:123 | the stream content of n ≥ 1 lines is a leading newline followed by the lines joined with newlines |
| MarkdownFormat.FormatLines | src/app.js:127-139 | the loop with its `jumpLine` flag writes exactly the lines of `Formatted`, and the stream holds their rendering |
| MarkdownFormat.FormatPrefixLayout | src/app.js:130-139 | for every prefix of the input: its length is the number of lines plus the number of insertions, each input line sits verbatim at `Pos`, and an inserted blank line sits before each line the rule selects |
| MarkdownFormat.FormattedLayout | src/app.js:127-139 | every input line is written verbatim and in order at strictly increasing positions. The first line is at 0, so there is no leading blank. Consecutive lines are one apart, or two when a blank was inserted exactly by the rule. The last input line is the last output line. So deleting the inserted blanks recovers the input |
| MarkdownFormat.InsertedBound | src/app.js:127-136 | among m ≥ 1 lines at most m − 1 blanks are inserted, because `jumpLine` starts false |
| MarkdownFormat.OutputLength | src/app.js:104-139 | n ≥ 1 input lines give n + k output lines with 0 ≤ k ≤ n − 1 |
| MarkdownFormat.FormatPrefixSettled | src/app.js:132-136 | in the output, every line after a `#` or `*` line is already empty, so no insertion point remains |
| MarkdownFormat.SettledIsFixed | src/app.js:132-136 | a sequence with no insertion point formats to itself |
| MarkdownFormat.Idempotent | src/app.js:132-136 | formatting the formatter's output changes nothing |
| MarkdownFormat.NotInjective | src/app.js:132-138 | ["# Title", "body"] and ["# Title", "", "body"] both format to ["# Title", "", "body"], so the blank lines cannot be told apart from the output alone |
| ExportTitle.FirstTitle | src/app.js:107 | returns the index of the first line starting with "# ", or None exactly when no line does |
| ExportTitle.ReplaceChar | src/app.js:110 | the global one-character replace keeps the length and replaces exactly the matching characters |
| ExportTitle.SanitizeAt | src/app.js:110 | the `[^a-zA-Z0-9-]` replace keeps the length, keeps each allowed character and turns every other character into a space |
| ExportTitle.TitleShape | src/app.js:107-110 | for a "# " line, the title is the line minus its 2-character prefix: length minus 2, each character outside [A-Za-z0-9-] a space, only such characters and spaces. The space-for-space replace is a no-op |
| ExportTitle.ExportNameSource | src/app.js:107-115 | a title line exists exactly when `find` succeeds. Then the name is that first title line minus its "# ": 2 characters shorter, each character outside [A-Za-z0-9-] a space, so only such characters and spaces. Otherwise the name is the draft name |
| Coordinator.ExportContentShape | src/app.js:104-139 | the file content is a leading newline and then the formatted lines joined by newlines, and there are at least as many formatted lines as summary lines |
| Coordinator.SplitExample | src/app.js:104 | "# Hi\nworld" splits into ["# Hi", "world"] |
| Coordinator.FormatExample | src/app.js:130-139 | ["# Hi", "world"] formats to ["# Hi", "", "world"] |
| Coordinator.RenderExample | src/app.js:123 | ["# Hi", "", "world"] is written as "\n# Hi\n\nworld" |
| Coordinator.TitleExample | src/app.js:107-110 | the summary ["# Hi", "world"] is named "Hi" |
| Coordinator.ExportExample | src/app.js:104-139 | exporting "# Hi\nworld" writes "\n# Hi\n\nworld" to "Hi.md" |
| Coordinator.EmptySummaryExport | src/app.js:104-139 | an empty summary is exported as a single newline |
| Coordinator.EventCoordinator.OnReady | src/app.js:32-35 | sends key presence, then the current folder, and changes nothing else |
| Coordinator.EventCoordinator.ToCredentials | src/app.js:55-58 | stores the key and sends exactly one `fromCredentials(true)` |
| Coordinator.EventCoordinator.ToFilePath | src/app.js:63-74 | if the probe fails, the folder is unchanged and the old folder is echoed. Otherwise the new folder is stored and echoed. Either way exactly one `fromFilePath` is sent, and the stored folder is the default or one that passed the probe |
| Coordinator.EventCoordinator.ToSummary | src/app.js:79-97 | with no key, sends the API-key message. With a key but an unparsable URL, sends the URL message. In both cases the summariser is not called. Otherwise it is called once with (url, withCode): a truthy result is sent unchanged and a falsy one sends nothing. Nothing else changes |
| Coordinator.EventCoordinator.ToExport | src/app.js:102-146 | the target is `join(folder, name + ".md")`. The file there is overwritten with the rendered formatted lines, and exactly one `fromExport(target)` is sent |

## Left out

- Window creation, dev tools, and the `resized`, `closed`, `window-all-closed` and `activate` handlers (src/app.js:8-31, 36-50): user-interface and operating-system plumbing. The `winSize` setting is therefore not modelled.
- IPC transport and the `win?.` null check: a send is modelled as appending to `outbox`, as if a window is always attached.
- The `./api` module is not part of this model. The model assumes that `hasApiKey()` is true exactly after a key has been saved, and that `getFilePath` returns the last path saved, or the default.
- Coordinator.EventCoordinator.ToExport: the write stream's asynchronous error callback, which throws outside the `try`, and `logger.end()` are I/O and asynchronous behaviour and are left out. The model always writes the whole content and reports the target path. The error path that sends `err` on `fromExport` is not modelled.
- Coordinator.EventCoordinator.ToSummary: the `await` is treated as atomic. Handlers that interleave while the summariser runs, and a rejected summariser promise, are not modelled.
- The writability probe, URL parsing, the summariser, `path.join` and the `Date`-based draft name are parameters without internal structure. The probe's answer is taken at the time of the call.
- ExportTitle.TitleShape: characters are Unicode scalar values. JavaScript strings are UTF-16, so a character outside the Basic Multilingual Plane counts as two code units there and becomes two spaces. The model gives one.
- `console.log` calls are left out.
- Coordinator.EventCoordinator.ToSummary: `getSummary` belongs to the `./api` module, which is not part of this model. Its resolved value is assumed to be a string, or undefined/null (`None`), and the `if (text)` truthiness check is modelled on that type only. If the value were an object, such as a record with an empty `text`, JavaScript would treat it as truthy and send it. The model cannot express that case.
