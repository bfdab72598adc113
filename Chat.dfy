/**
 * The `chat` and `sync` commands (src/cli/chat.py) around the stream decoder: output
 * mode, settings resolution, the tool list, the completion request, and where the
 * parent pointer is written.
 */
module Chat {
  import opened Wrappers
  import opened Text
  import opened Store
  import opened Stream
  import opened Sinks

  /** Raw output is used when asked for, when saving to a file, or when stdout is not a terminal. */
  function UseRawMode(raw: bool, output: Option<string>, isTty: bool): (r: bool)
    ensures r <==> raw || Truthy(output) || !isTty
    ensures !raw && !Truthy(output) ==> (r <==> !isTty)
  {
    raw || Truthy(output) || !isTty
  }

  /** The tools a completion request can enable, in the order they are appended. */
  datatype Tool = WebSearch | Artifacts | Repl

  /** The `{"type": ..., "name": ...}` dictionary a tool is sent as. */
  datatype ToolSpec = ToolSpec(toolType: string, name: string)

  /** The dictionary appended for `t`: its type is its name with the version suffix `_v0`. */
  function Spec(t: Tool): (d: ToolSpec)
    ensures d.toolType == d.name + "_v0"
    ensures d.name in {"web_search", "artifacts", "repl"}
  {
    match t
    case WebSearch => ToolSpec("web_search_v0", "web_search")
    case Artifacts => ToolSpec("artifacts_v0", "artifacts")
    case Repl => ToolSpec("repl_v0", "repl")
  }

  /** The dictionaries sent for a tool list, one per tool, in order. */
  function Specs(tools: seq<Tool>): (ds: seq<ToolSpec>)
    ensures |ds| == |tools| && forall i :: 0 <= i < |tools| ==> ds[i] == Spec(tools[i])
  {
    seq(|tools|, i requires 0 <= i < |tools| => Spec(tools[i]))
  }

  /** Tools listed strictly by rank: the order they are appended in, each at most once. */
  predicate InRankOrder(tools: seq<Tool>)
  {
    forall i, j :: 0 <= i < j < |tools| ==> Rank(tools[i]) < Rank(tools[j])
  }

  /** Different tools are sent as different dictionaries. */
  lemma SpecInjective(a: Tool, b: Tool)
    requires Spec(a) == Spec(b)
    ensures a == b
  {
  }

  /** A tool's dictionary is among those sent exactly when the tool is in the list. */
  lemma SpecsMembers(tools: seq<Tool>)
    ensures forall t :: Spec(t) in Specs(tools) <==> t in tools
  {
    forall t ensures Spec(t) in Specs(tools) <==> t in tools {
      if t in tools {
        var i :| 0 <= i < |tools| && tools[i] == t;
        assert Specs(tools)[i] == Spec(t);
      }
      if Spec(t) in Specs(tools) {
        var i :| 0 <= i < |Specs(tools)| && Specs(tools)[i] == Spec(t);
        SpecInjective(tools[i], t);
      }
    }
  }

  /** A tool list in rank order sends no dictionary twice. */
  lemma SpecsDistinct(tools: seq<Tool>)
    requires InRankOrder(tools)
    ensures forall i, j :: 0 <= i < j < |Specs(tools)| ==> Specs(tools)[i] != Specs(tools)[j]
  {
    forall i, j | 0 <= i < j < |Specs(tools)| ensures Specs(tools)[i] != Specs(tools)[j] {
      if Specs(tools)[i] == Specs(tools)[j] {
        SpecInjective(tools[i], tools[j]);
        assert false;
      }
    }
  }

  function Rank(t: Tool): nat
  {
    match t
    case WebSearch => 0
    case Artifacts => 1
    case Repl => 2
  }

  /** The settings flag that enables a tool. */
  predicate Enabled(s: Settings, t: Tool)
  {
    match t
    case WebSearch => s.webSearch
    case Artifacts => s.artifacts
    case Repl => s.turmeric
  }

  /**
   * The tool list: exactly the enabled tools, in the fixed order web search, artifacts,
   * repl, so without duplicates and at most three.
   */
  method BuildTools(settings: Settings) returns (tools: seq<Tool>)
    ensures forall t :: t in tools <==> Enabled(settings, t)
    ensures InRankOrder(tools)
    ensures |tools| <= 3
    ensures settings == AllEnabled ==> tools == [WebSearch, Artifacts, Repl]
    ensures settings == NoFlags ==> tools == []
  {
    tools := [];
    if settings.webSearch {
      tools := tools + [WebSearch];
    }
    if settings.artifacts {
      tools := tools + [Artifacts];
    }
    if settings.turmeric {
      tools := tools + [Repl];
    }
  }

  /**
   * The dictionaries `ds` are those of exactly the tools `settings` enables, in the
   * order they are appended, and none is sent twice.
   */
  ghost predicate SendsEnabled(ds: seq<ToolSpec>, settings: Settings)
  {
    && (exists tools :: ds == Specs(tools) && InRankOrder(tools) && forall t :: t in tools <==> Enabled(settings, t))
    && (forall t :: Spec(t) in ds <==> Enabled(settings, t))
    && (forall i, j :: 0 <= i < j < |ds| ==> ds[i] != ds[j])
  }

  /** The three dictionaries, in the order they are appended. */
  const AllSpecs := [ToolSpec("web_search_v0", "web_search"), ToolSpec("artifacts_v0", "artifacts"), ToolSpec("repl_v0", "repl")]

  /** The dictionaries of the tool list are what a request with those settings sends. */
  lemma EnabledSpecsSent(settings: Settings, tools: seq<Tool>)
    requires InRankOrder(tools) && forall t :: t in tools <==> Enabled(settings, t)
    ensures SendsEnabled(Specs(tools), settings)
  {
    SpecsMembers(tools);
    SpecsDistinct(tools);
  }

  /** With every tool enabled, the three dictionaries are sent in the order of the source. */
  lemma AllSpecsSent()
    ensures Specs([WebSearch, Artifacts, Repl]) == AllSpecs
  {
    var ds := Specs([WebSearch, Artifacts, Repl]);
    assert ds[0] == AllSpecs[0] && ds[1] == AllSpecs[1] && ds[2] == AllSpecs[2];
  }

  /** The settings a send uses, and the cache write a successful fetch makes. */
  datatype Resolved = Resolved(settings: Settings, cacheWrite: seq<Write>)

  /**
   * The cached settings when there are any; otherwise the fetched ones, cached under the
   * current parent; otherwise, when the fetch fails, every tool enabled.
   */
  function ResolveSettings(conversation: string, parent: Option<string>, cached: Option<Settings>, details: Details): (r: Resolved)
    ensures cached.Some? ==> r == Resolved(cached.value, [])
    ensures cached.None? && details.status == 200 ==>
              r == Resolved(details.settings, [Write(Some(conversation), parent, Some(details.settings))])
    ensures cached.None? && details.status != 200 ==> r == Resolved(AllEnabled, [])
  {
    if cached.Some? then Resolved(cached.value, [])
    else if details.status == 200 then Resolved(details.settings, [Write(Some(conversation), parent, Some(details.settings))])
    else Resolved(AllEnabled, [])
  }

  /** The `send_completion` call, with the tool dictionaries it sends. */
  datatype Request = Request(conversation: string, prompt: string, parent: Option<string>, tools: seq<ToolSpec>)

  /** The decoded `send_completion` response: its status and body lines. */
  datatype Completion = Completion(status: int, lines: seq<Line>)

  /** What the user sees of the stream. */
  datatype View =
    | NoView
    | LiveView(snapshots: seq<string>)
    | RawView(echoed: seq<string>, saved: Option<FileWrite>)   // "Output saved to ..." exactly when `saved` is present

  /** The final message of the command. */
  datatype Notice = NoAccount | NoConversation | SendFailed(status: int) | StreamError(fault: Fault) | SaveError(path: string) | Sent

  datatype SendReport = SendReport(notice: Notice, writes: seq<Write>, request: Option<Request>, view: View)

  /** The parent-pointer write after a stream: only after a completed stream whose message id is truthy. */
  function ParentWrite(conversation: string, t: Trace): (w: seq<Write>)
    ensures |w| <= 1
    ensures w != [] <==> t.fault.None? && Truthy(t.final.newMessageUuid)
    ensures w != [] ==> w[0].parent == t.final.newMessageUuid && w[0].conversation == Some(conversation)
  {
    if t.fault.None? && Truthy(t.final.newMessageUuid) then [Write(Some(conversation), t.final.newMessageUuid, None)] else []
  }

  /**
   * Reading the completion in the chosen mode. Either way the decoder ends as `Run` says;
   * the raw view echoes what the run emits, the live view shows the buffer after every
   * change. Only the raw mode saves, and only a save can fail.
   */
  method Receive(lines: seq<Line>, rawMode: bool, output: Option<string>, writable: bool, parse: string -> ArtifactParse)
    returns (view: View, saveFailed: bool, final: State, fault: Option<Fault>)
    ensures var t := Run(Initial, lines, parse);
            && t.final == final && t.fault == fault
            && (view.RawView? <==> rawMode) && !view.NoView?
            && (view.RawView? ==> view.echoed == (if fault.None? then t.emitted + ["\n"] else t.emitted))
            && (view.RawView? ==> view.saved == if fault.None? && Truthy(output) && writable then Some(FileWrite(output.value, final.buffer)) else None)
            && (saveFailed <==> rawMode && fault.None? && Truthy(output) && !writable)
            && (view.LiveView? ==> view.snapshots == LiveViews(Initial, lines, parse))
            && (view.LiveView? ==> Growing(view.snapshots) && final.buffer == Last(view.snapshots))
  {
    if !rawMode {
      var snapshots;
      snapshots, final, fault := LiveLoop(lines, parse);
      LiveViewsTrackBuffer(Initial, lines, parse);
      view, saveFailed := LiveView(snapshots), false;
    } else {
      var echoed, saved;
      echoed, saved, saveFailed, final, fault := RawLoop(lines, output, writable, parse);
      view := RawView(echoed, saved);
    }
  }

  /**
   * The `chat` command. `hasAccount` is "session and org id are both truthy", `details`
   * is what the settings fetch would return, `completion` is the response to the
   * request and `writable` whether the output file can be written. Both output modes
   * fold the same lines through `Run`, so the parent write does not depend on the mode;
   * a failed save raises before the parent write, which is then skipped.
   */
  method Send(hasAccount: bool, conversation: Option<string>, parent: Option<string>, words: seq<string>,
              raw: bool, output: Option<string>, isTty: bool, writable: bool, cached: Option<Settings>, details: Details,
              completion: Completion, parse: string -> ArtifactParse) returns (r: SendReport)
    ensures !hasAccount ==> r == SendReport(NoAccount, [], None, NoView)
    ensures hasAccount && !Truthy(conversation) ==> r == SendReport(NoConversation, [], None, NoView)
    ensures hasAccount && Truthy(conversation) ==>
              var resolved := ResolveSettings(conversation.value, parent, cached, details);
              && r.request.Some?
              && r.request.value.conversation == conversation.value
              && r.request.value.prompt == Join(words, " ")
              && r.request.value.parent == parent
              && SendsEnabled(r.request.value.tools, resolved.settings)
              && (cached.None? && details.status != 200 ==> r.request.value.tools == AllSpecs)
              && (completion.status != 200 ==> r.notice == SendFailed(completion.status) && r.writes == resolved.cacheWrite && r.view == NoView)
    ensures hasAccount && Truthy(conversation) && completion.status == 200 ==>
              var t := Run(Initial, completion.lines, parse);
              var saveFailed := UseRawMode(raw, output, isTty) && t.fault.None? && Truthy(output) && !writable;
              && r.notice == (if t.fault.Some? then StreamError(t.fault.value) else if saveFailed then SaveError(output.value) else Sent)
              && r.writes == ResolveSettings(conversation.value, parent, cached, details).cacheWrite
                             + (if saveFailed then [] else ParentWrite(conversation.value, t))
              && (r.view.RawView? <==> UseRawMode(raw, output, isTty))
              && (r.view.RawView? ==> r.view.echoed == (if t.fault.None? then t.emitted + ["\n"] else t.emitted))
              && (r.view.RawView? ==> r.view.saved == if t.fault.None? && Truthy(output) && writable then Some(FileWrite(output.value, t.final.buffer)) else None)
              && (r.view.LiveView? ==> r.view.snapshots == LiveViews(Initial, completion.lines, parse))
              && (r.view.LiveView? ==> Growing(r.view.snapshots) && t.final.buffer == Last(r.view.snapshots))
  {
    if !hasAccount {
      return SendReport(NoAccount, [], None, NoView);
    }
    if !Truthy(conversation) {
      return SendReport(NoConversation, [], None, NoView);
    }
    var prompt := Join(words, " ");
    var rawMode := UseRawMode(raw, output, isTty);
    var resolved := ResolveSettings(conversation.value, parent, cached, details);
    var tools := BuildTools(resolved.settings);
    EnabledSpecsSent(resolved.settings, tools);
    AllSpecsSent();
    var request := Request(conversation.value, prompt, parent, Specs(tools));
    if completion.status != 200 {
      return SendReport(SendFailed(completion.status), resolved.cacheWrite, Some(request), NoView);
    }
    var view, saveFailed, final, fault := Receive(completion.lines, rawMode, output, writable, parse);
    if saveFailed {
      return SendReport(SaveError(output.value), resolved.cacheWrite, Some(request), view);
    }
    var writes := resolved.cacheWrite;
    if fault.None? && Truthy(final.newMessageUuid) {
      writes := writes + [Write(conversation, final.newMessageUuid, None)];
    }
    var notice := if fault.Some? then StreamError(fault.value) else Sent;
    r := SendReport(notice, writes, Some(request), view);
  }

  /** How `sync` ends. */
  datatype SyncReport =
    | SyncNoAccount
    | SyncNoConversation
    | Updated(total: nat)      // the parent moved to the last message
    | AlreadySynced
    | SyncedEmpty
    | SyncAuthFailed
    | SyncFailed(status: int)
    | SyncError               // `current_parent[:16]` on a missing parent raises after the write

  datatype SyncOutcome = SyncOutcome(write: Option<Write>, report: SyncReport)

  /**
   * The `sync` command: after a successful fetch the parent pointer becomes the last
   * message's uuid, or the zero uuid for an empty conversation, and the fetched settings
   * are cached; it reports "already synced" exactly when the old parent was that message.
   */
  function Sync(hasAccount: bool, conversation: Option<string>, currentParent: Option<string>, details: Details): (r: SyncOutcome)
    ensures r.write.Some? <==> hasAccount && Truthy(conversation) && details.status == 200
    ensures r.write.Some? ==> r.write.value == Write(conversation, Some(ParentAfterLoad(details.messages)), Some(details.settings))
    ensures r.report == AlreadySynced <==>
              hasAccount && Truthy(conversation) && details.status == 200 && details.messages != []
              && currentParent == Some(details.messages[|details.messages| - 1])
    ensures r.report.Updated? <==>
              hasAccount && Truthy(conversation) && details.status == 200 && details.messages != []
              && currentParent.Some? && currentParent != Some(details.messages[|details.messages| - 1])
    ensures r.report.Updated? ==> r.report.total == |details.messages| && r.write.Some? && r.write.value.parent != currentParent
    ensures r.report == SyncError <==>
              hasAccount && Truthy(conversation) && details.status == 200 && details.messages != [] && currentParent.None?
    ensures r.report == SyncedEmpty <==> hasAccount && Truthy(conversation) && details.status == 200 && details.messages == []
    ensures r.report == SyncAuthFailed <==> hasAccount && Truthy(conversation) && details.status in {401, 403}
    ensures r.report.SyncFailed? <==> hasAccount && Truthy(conversation) && details.status !in {200, 401, 403}
    ensures r.report.SyncFailed? ==> r.report.status == details.status
    ensures r.report == SyncNoAccount <==> !hasAccount
    ensures r.report == SyncNoConversation <==> hasAccount && !Truthy(conversation)
  {
    if !hasAccount then SyncOutcome(None, SyncNoAccount)
    else if !Truthy(conversation) then SyncOutcome(None, SyncNoConversation)
    else if details.status == 200 then
      var messages := details.messages;
      var write := Write(conversation, Some(ParentAfterLoad(messages)), Some(details.settings));
      if messages != [] then
        var last := messages[|messages| - 1];
        if currentParent == Some(last) then SyncOutcome(Some(write), AlreadySynced)
        else if currentParent.None? then SyncOutcome(Some(write), SyncError)
        else SyncOutcome(Some(write), Updated(|messages|))
      else SyncOutcome(Some(write), SyncedEmpty)
    else if details.status == 401 || details.status == 403 then SyncOutcome(None, SyncAuthFailed)
    else SyncOutcome(None, SyncFailed(details.status))
  }

  /** On a first sync, with no parent stored yet, the write happens and then the report fails. */
  lemma SyncWithoutParentErrors(conversation: string, messages: seq<string>, settings: Settings)
    requires conversation != "" && messages != []
    ensures var r := Sync(true, Some(conversation), None, Details(200, messages, settings));
            r.write == Some(Write(Some(conversation), Some(messages[|messages| - 1]), Some(settings)))
            && r.report == SyncError
  {
  }

  /** `sync` with the old parent printed whatever it is: every moved parent reports `Updated`. */
  function SyncReported(hasAccount: bool, conversation: Option<string>, currentParent: Option<string>, details: Details): (r: SyncOutcome)
    ensures r.write == Sync(hasAccount, conversation, currentParent, details).write
    ensures r.report != SyncError
    ensures r.report.Updated? <==>
              hasAccount && Truthy(conversation) && details.status == 200 && details.messages != []
              && currentParent != Some(details.messages[|details.messages| - 1])
    ensures r.report.Updated? ==> r.report.total == |details.messages| && r.write.value.parent != currentParent
    ensures Sync(hasAccount, conversation, currentParent, details).report != SyncError ==>
              r == Sync(hasAccount, conversation, currentParent, details)
  {
    var r := Sync(hasAccount, conversation, currentParent, details);
    if r.report == SyncError then SyncOutcome(r.write, Updated(|details.messages|)) else r
  }
}
