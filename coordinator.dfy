/**
 * The IPC handlers of the main process: `toCredentials`, `toFilePath`,
 * `toSummary` and `toExport`, and the initial state sent once the page is
 * ready. Each handler checks its guards, updates the configuration and the
 * disk, and sends one message (or none) to the renderer.
 *
 * What the handlers ask of the outside world is passed in as a parameter:
 * the writability probe (`fs.accessSync` with W_OK), URL parsing (`new URL`),
 * the summariser (`getSummary`), `path.join`, and the clock-derived draft name.
 */
module Coordinator {
  import opened Text
  import opened Lines
  import MarkdownFormat
  import ExportTitle

  /** Messages sent to the renderer, one constructor per channel. */
  datatype Message =
    | FromCredentials(present: bool)
    | FromFilePath(path: string)
    | FromSummary(text: string)
    | FromExport(target: string)

  /** One call of the external summariser. */
  datatype SummaryRequest = SummaryRequest(url: string, withCode: bool)

  const NoApiKeyMessage: string := "You must provide an API key"
  const InvalidUrlMessage: string := "The URL is not valid"

  /** The JavaScript truthiness of what the summariser resolves to, taken
      to be a string or nothing: `None` stands for undefined or null, and ""
      is falsy too. */
  predicate Truthy(text: Option<string>) {
    text.Some? && text.value != ""
  }

  /** What the export handler writes for a summary. */
  function ExportContent(summary: string): string {
    Render(MarkdownFormat.Formatted(Split(summary)))
  }

  /** The export file is the formatted lines, each after a newline; since a
      split never returns an empty array, that is a leading newline followed by
      the formatted lines joined with newlines. */
  lemma ExportContentShape(summary: string)
    ensures |Split(summary)| <= |MarkdownFormat.Formatted(Split(summary))|
    ensures ExportContent(summary) == "\n" + Join(MarkdownFormat.Formatted(Split(summary)))
  {
    MarkdownFormat.OutputLength(Split(summary));
    RenderIsJoin(MarkdownFormat.Formatted(Split(summary)));
  }

  lemma SplitExample()
    ensures Split("# Hi\nworld") == ["# Hi", "world"]
  {
    var lines := ["# Hi", "world"];
    assert Join(lines) == "# Hi\nworld";
    assert NewlineFree(lines);
    SplitJoin(lines);
  }

  lemma FormatExample()
    ensures MarkdownFormat.Formatted(["# Hi", "world"]) == ["# Hi", "", "world"]
  {
    var lines := ["# Hi", "world"];
    assert MarkdownFormat.Marked(lines[0]) by { assert lines[0][..1] == "#"; }
    assert MarkdownFormat.FormatPrefix(lines, 1) == ["# Hi"];
  }

  lemma RenderExample()
    ensures Render(["# Hi", "", "world"]) == "\n# Hi\n\nworld"
  {
  }

  lemma TitleExample(draftName: string)
    ensures ExportTitle.ExportName(["# Hi", "world"], draftName) == "Hi"
  {
  }

  /** The summary "# Hi\nworld" is exported as "\n# Hi\n\nworld" to "Hi.md". */
  lemma ExportExample(draftName: string)
    ensures ExportContent("# Hi\nworld") == "\n# Hi\n\nworld"
    ensures ExportTitle.TargetName(Split("# Hi\nworld"), draftName) == "Hi.md"
  {
    SplitExample();
    FormatExample();
    RenderExample();
    TitleExample(draftName);
  }

  /** An empty summary still splits into one empty line, so its export file
      holds a single newline rather than nothing. */
  lemma EmptySummaryExport()
    ensures ExportContent("") == "\n"
  {
  }

  class EventCoordinator {
    /** The stored API key, behind `saveApiKey` and `hasApiKey`. */
    var apiKey: Option<string>
    /** The output folder, what `getFilePath` returns. */
    var filePath: string
    /** Messages sent to the renderer, oldest first. */
    var outbox: seq<Message>
    /** Calls made to the summariser, oldest first. */
    var summaryCalls: seq<SummaryRequest>
    /** Files written by exports: target path to content. */
    var disk: map<string, string>

    /** The folder used before any path has been saved. */
    ghost const defaultPath: string
    /** Every path that passed the writability probe when it was offered. */
    ghost var accepted: set<string>

    /** The output folder is the default one or one that passed the probe. */
    ghost predicate Valid()
      reads this
    {
      filePath == defaultPath || filePath in accepted
    }

    function HasApiKey(): bool
      reads this
    {
      apiKey.Some?
    }

    constructor (storedKey: Option<string>, folder: string)
      ensures Valid()
      ensures apiKey == storedKey && filePath == folder && defaultPath == folder
      ensures outbox == [] && summaryCalls == [] && disk == map[]
    {
      apiKey, filePath := storedKey, folder;
      outbox, summaryCalls, disk := [], [], map[];
      defaultPath, accepted := folder, {};
    }

    /** Once the page is loaded: key presence, then the folder. */
    method OnReady()
      modifies this
      ensures outbox == old(outbox) + [FromCredentials(old(HasApiKey())), FromFilePath(old(filePath))]
      ensures apiKey == old(apiKey) && filePath == old(filePath)
      ensures summaryCalls == old(summaryCalls) && disk == old(disk) && accepted == old(accepted)
    {
      outbox := outbox + [FromCredentials(HasApiKey()), FromFilePath(filePath)];
    }

    /** `toCredentials`: store the key and report that one is present. */
    method ToCredentials(key: string)
      requires Valid()
      modifies this
      ensures Valid()
      ensures apiKey == Some(key) && HasApiKey()
      ensures outbox == old(outbox) + [FromCredentials(true)]
      ensures filePath == old(filePath) && summaryCalls == old(summaryCalls)
      ensures disk == old(disk) && accepted == old(accepted)
    {
      apiKey := Some(key);
      outbox := outbox + [FromCredentials(HasApiKey())];
    }

    /** `toFilePath`: keep the new folder only if the probe says it is
        writable; either way echo the folder now in effect, exactly once. */
    method ToFilePath(path: string, writable: string -> bool)
      requires Valid()
      modifies this
      ensures Valid()
      ensures writable(path) ==> filePath == path && accepted == old(accepted) + {path}
      ensures !writable(path) ==> filePath == old(filePath) && accepted == old(accepted)
      ensures outbox == old(outbox) + [FromFilePath(filePath)]
      ensures apiKey == old(apiKey) && summaryCalls == old(summaryCalls) && disk == old(disk)
    {
      if !writable(path) {
        outbox := outbox + [FromFilePath(filePath)];
        return;
      }
      filePath := path;
      accepted := accepted + {path};
      outbox := outbox + [FromFilePath(filePath)];
    }

    /** `toSummary`: the key check, then the URL check, both before the
        summariser is called; a truthy result is sent as it is, a falsy one
        sends nothing. */
    method ToSummary(url: string, withCode: bool,
                     parsesAsUrl: string -> bool,
                     summarize: (string, bool) -> Option<string>)
      requires Valid()
      modifies this
      ensures Valid()
      ensures !old(HasApiKey()) ==>
                outbox == old(outbox) + [FromSummary(NoApiKeyMessage)]
                && summaryCalls == old(summaryCalls)
      ensures old(HasApiKey()) && !parsesAsUrl(url) ==>
                outbox == old(outbox) + [FromSummary(InvalidUrlMessage)]
                && summaryCalls == old(summaryCalls)
      ensures old(HasApiKey()) && parsesAsUrl(url) ==>
                summaryCalls == old(summaryCalls) + [SummaryRequest(url, withCode)]
                && outbox == old(outbox) + (if Truthy(summarize(url, withCode))
                                            then [FromSummary(summarize(url, withCode).value)]
                                            else [])
      ensures apiKey == old(apiKey) && filePath == old(filePath)
      ensures disk == old(disk) && accepted == old(accepted)
    {
      if !HasApiKey() {
        outbox := outbox + [FromSummary(NoApiKeyMessage)];
        return;
      }
      if !parsesAsUrl(url) {
        outbox := outbox + [FromSummary(InvalidUrlMessage)];
        return;
      }
      summaryCalls := summaryCalls + [SummaryRequest(url, withCode)];
      var text := summarize(url, withCode);
      if Truthy(text) {
        outbox := outbox + [FromSummary(text.value)];
      }
    }

    /** `toExport`: name the file after the summary's first "# " line (or the
        draft name), write the formatted lines to it in the output folder,
        overwriting any earlier file, and report its path. */
    method ToExport(summary: string, draftName: string, join: (string, string) -> string)
      returns (target: string)
      requires Valid()
      modifies this
      ensures Valid()
      ensures target == join(filePath, ExportTitle.TargetName(Split(summary), draftName))
      ensures disk == old(disk)[target := ExportContent(summary)]
      ensures outbox == old(outbox) + [FromExport(target)]
      ensures apiKey == old(apiKey) && filePath == old(filePath)
      ensures summaryCalls == old(summaryCalls) && accepted == old(accepted)
    {
      var lines := Split(summary);
      var name := ExportTitle.ExportName(lines, draftName);
      target := join(filePath, name + ".md");
      var emitted, content := MarkdownFormat.FormatLines(lines);
      disk := disk[target := content];
      outbox := outbox + [FromExport(target)];
    }
  }

  /** A session from a fresh start: no key, then a key and a bad URL, then a
      good URL, then an export. */
  method Session(folder: string, parsesAsUrl: string -> bool,
                 summarize: (string, bool) -> Option<string>,
                 writable: string -> bool, join: (string, string) -> string)
    requires !parsesAsUrl("not a url") && parsesAsUrl("https://example.com")
  {
    var c := new EventCoordinator(None, folder);
    c.ToSummary("https://example.com", false, parsesAsUrl, summarize);
    assert c.outbox == [FromSummary(NoApiKeyMessage)] && c.summaryCalls == [];
    c.ToCredentials("key");
    c.ToSummary("not a url", false, parsesAsUrl, summarize);
    assert c.outbox[2] == FromSummary(InvalidUrlMessage) && c.summaryCalls == [];
    c.ToSummary("https://example.com", true, parsesAsUrl, summarize);
    assert c.summaryCalls == [SummaryRequest("https://example.com", true)];
    var target := c.ToExport("# Hi\nworld", "draft", join);
    ExportExample("draft");
    assert c.disk[target] == "\n# Hi\n\nworld";
    assert target == join(folder, "Hi.md");
  }
}
