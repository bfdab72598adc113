/**
 * The streaming response decoder of `chat` (src/cli/chat.py): the five variables the
 * two read loops fold the response lines into, one transition that both loops share,
 * and the renderer for a closed artifact.
 */
module Stream {
  import opened Wrappers
  import opened Text

  /** One line of the response body, already UTF-8 decoded and, after `data: `, JSON decoded. */
  datatype Line =
    | Blank                 // empty line, skipped by `if line:`
    | NonData               // no `data: ` prefix
    | BadJson               // the payload raises JSONDecodeError
    | NonObject             // the payload is JSON but not an object: `.get` raises
    | MessageStart(uuid: Option<string>)
    | BlockStart(index: Option<int>, blockType: Option<string>, name: Option<string>)
    | BlockDelta(kind: Option<string>, text: Option<string>, partialJson: Option<string>)
    | BlockStop(index: Option<int>)
    | Unknown               // any other `type`, or none

  /** Lines that no branch of the loop acts on. */
  predicate Ignored(line: Line)
  {
    line.Blank? || line.NonData? || line.BadJson? || line.Unknown?
  }

  /** What `json.loads(artifact_json)` gives: an error, a non-object, or the three fields (absent as `None`). */
  datatype ArtifactParse =
    | Undecodable
    | NotAnObject
    | Fields(title: Option<string>, content: Option<string>, language: Option<string>)

  /** The exceptions that escape the per-line JSONDecodeError handler and end the stream. */
  datatype Fault = MissingText | MissingPartialJson | PayloadNotObject | ArtifactNotObject

  const ParseFailureText := "\nCould not parse artifact JSON\n"
  const HeadingOpen := "\n\n### "
  const HeadingClose := "\n\n"
  const FenceClose := "\n```\n\n"

  function Heading(title: string): string { HeadingOpen + title + HeadingClose }

  function CodeBlock(language: string, content: string): string { "```" + language + "\n" + content + FenceClose }

  /**
   * The chunks a closed artifact appends, in the order the raw loop echoes them; `None`
   * when the payload is not an object (the `.get` call raises).
   */
  function RenderArtifact(p: ArtifactParse): (r: Option<seq<string>>)
    ensures r.None? <==> p.NotAnObject?
    ensures p.Undecodable? ==> r == Some([ParseFailureText])
    ensures p.Fields? ==> 1 <= |r.value| <= 2 && r.value[0] == Heading(p.title.GetOr("Untitled"))
    ensures p.Fields? ==> (|r.value| == 2 <==> p.content.GetOr("") != "")
    ensures p.Fields? && |r.value| == 2 ==> r.value[1] == CodeBlock(p.language.GetOr(""), p.content.value)
  {
    match p
    case Undecodable => Some([ParseFailureText])
    case NotAnObject => None
    case Fields(title, content, language) =>
      var heading := Heading(title.GetOr("Untitled"));
      if content.GetOr("") != "" then Some([heading, CodeBlock(language.GetOr(""), content.value)])
      else Some([heading])
  }

  /**
   * On close the buffer grows by exactly one of two texts: the diagnostic when the
   * payload does not decode, otherwise the heading (title defaulting to "Untitled")
   * followed, only for non-empty content, by the fenced content tagged with its language.
   */
  lemma {:induction false} ArtifactAppendsExactly(p: ArtifactParse)
    requires !p.NotAnObject?
    ensures Concat(RenderArtifact(p).value) ==
              if p.Undecodable? then "\nCould not parse artifact JSON\n"
              else "\n\n### " + p.title.GetOr("Untitled") + "\n\n"
                   + (if p.content.GetOr("") == "" then ""
                      else "```" + p.language.GetOr("") + "\n" + p.content.value + "\n```\n\n")
  {
    var chunks := RenderArtifact(p).value;
    assert Concat(chunks) == chunks[0] + Concat(chunks[1..]);
    if |chunks| == 2 {
      assert Concat(chunks[1..]) == chunks[1] + Concat(chunks[2..]);
    }
  }

  /** The five variables of the read loops. */
  datatype State = State(
    buffer: string,                  // markdown_buffer
    artifactJson: string,            // artifact_json
    inArtifact: bool,                // in_artifact
    currentIndex: Option<int>,       // current_index
    newMessageUuid: Option<string>)  // new_message_uuid

  const Initial := State("", "", false, None, None)

  /** Fragments are only ever buffered for an open artifact. */
  predicate Inv(s: State)
  {
    s.artifactJson != "" ==> s.inArtifact
  }

  /** The stop that closes the open artifact. */
  predicate Closes(s: State, line: Line)
  {
    line.BlockStop? && s.inArtifact && line.index == s.currentIndex
  }

  /** One line's effect: the next state and the chunks appended to the buffer, or the escaping fault. */
  datatype StepResult = Stepped(next: State, chunks: seq<string>) | Failed(fault: Fault)

  /** The body of the `for line in response.iter_lines()` loop, shared by both output modes. */
  function Step(s: State, line: Line, parse: string -> ArtifactParse): (r: StepResult)
    ensures Ignored(line) ==> r == Stepped(s, [])
    ensures r.Stepped? ==> r.next.buffer == s.buffer + Concat(r.chunks)
    ensures r.Stepped? && Inv(s) ==> Inv(r.next)
    ensures r.Failed? <==>
              || line.NonObject?
              || (line.BlockDelta? && line.kind == Some("text_delta") && line.text.None?)
              || (line.BlockDelta? && line.kind == Some("input_json_delta") && s.inArtifact && line.partialJson.None?)
              || (Closes(s, line) && parse(s.artifactJson).NotAnObject?)
    ensures line.MessageStart? ==> r == Stepped(s.(newMessageUuid := line.uuid), [])
    ensures line.BlockStart? ==> r.Stepped? && r.next.currentIndex == line.index && r.chunks == []
                                 && r.next.inArtifact == (s.inArtifact || (line.blockType == Some("tool_use") && line.name == Some("artifacts")))
    ensures line.BlockDelta? && line.kind == Some("input_json_delta") && !s.inArtifact ==> r == Stepped(s, [])
    ensures line.BlockDelta? && line.kind == Some("input_json_delta") && s.inArtifact && r.Stepped? ==>
              r.next == s.(artifactJson := s.artifactJson + line.partialJson.value) && r.chunks == []
    ensures line.BlockStop? && !Closes(s, line) ==> r == Stepped(s, [])
    ensures Closes(s, line) && r.Stepped? ==>
              && r.next == State(s.buffer + Concat(r.chunks), "", false, None, s.newMessageUuid)
              && Some(r.chunks) == RenderArtifact(parse(s.artifactJson))
  {
    match line
    case Blank => Stepped(s, [])
    case NonData => Stepped(s, [])
    case BadJson => Stepped(s, [])
    case Unknown => Stepped(s, [])
    case NonObject => Failed(PayloadNotObject)
    case MessageStart(uuid) => Stepped(s.(newMessageUuid := uuid), [])
    case BlockStart(index, blockType, name) =>
      if blockType == Some("tool_use") && name == Some("artifacts") then
        Stepped(s.(currentIndex := index, inArtifact := true, artifactJson := ""), [])
      else
        Stepped(s.(currentIndex := index), [])
    case BlockDelta(kind, text, partialJson) =>
      if kind == Some("text_delta") then
        if text.None? then Failed(MissingText)
        else Stepped(s.(buffer := s.buffer + text.value), [text.value])
      else if kind == Some("input_json_delta") && s.inArtifact then
        if partialJson.None? then Failed(MissingPartialJson)
        else Stepped(s.(artifactJson := s.artifactJson + partialJson.value), [])
      else
        Stepped(s, [])
    case BlockStop(index) =>
      if s.inArtifact && index == s.currentIndex then
        match RenderArtifact(parse(s.artifactJson))
        case None => Failed(ArtifactNotObject)
        case Some(chunks) => Stepped(State(s.buffer + Concat(chunks), "", false, None, s.newMessageUuid), chunks)
      else
        Stepped(s, [])
  }

  /** The state a run ends in, every chunk appended on the way, and the fault that stopped it, if any. */
  datatype Trace = Trace(final: State, emitted: seq<string>, fault: Option<Fault>)

  /** `emitted` chunks followed by the trace `t` of the rest of the lines. */
  function After(emitted: seq<string>, t: Trace): Trace
  {
    Trace(t.final, emitted + t.emitted, t.fault)
  }

  /** Folding the lines through `Step`; a fault stops the fold in the state before the faulting line. */
  function Run(s: State, lines: seq<Line>, parse: string -> ArtifactParse): Trace
    decreases |lines|
  {
    if lines == [] then Trace(s, [], None)
    else
      var r := Step(s, lines[0], parse);
      if r.Failed? then Trace(s, [], Some(r.fault))
      else
        After(r.chunks, Run(r.next, lines[1..], parse))
  }

  /** One unfolding of `Run` on a non-empty sequence of lines. */
  lemma RunUnfold(s: State, lines: seq<Line>, parse: string -> ArtifactParse)
    requires lines != []
    ensures var r := Step(s, lines[0], parse);
            Run(s, lines, parse) == if r.Failed? then Trace(s, [], Some(r.fault)) else After(r.chunks, Run(r.next, lines[1..], parse))
  {
  }

  /** Advancing a run by one line that steps: its chunks move to the already-emitted part. */
  lemma RunAdvance(emitted: seq<string>, s: State, lines: seq<Line>, parse: string -> ArtifactParse, next: State, chunks: seq<string>)
    requires lines != [] && Step(s, lines[0], parse) == Stepped(next, chunks)
    ensures After(emitted, Run(s, lines, parse)) == After(emitted + chunks, Run(next, lines[1..], parse))
  {
    RunUnfold(s, lines, parse);
    var rest := Run(next, lines[1..], parse);
    assert emitted + (chunks + rest.emitted) == (emitted + chunks) + rest.emitted;
  }

  /** A run whose next line faults stops there, in the state before it. */
  lemma RunStops(s: State, lines: seq<Line>, parse: string -> ArtifactParse, fault: Fault)
    requires lines != [] && Step(s, lines[0], parse) == Failed(fault)
    ensures Run(s, lines, parse) == Trace(s, [], Some(fault))
  {
    RunUnfold(s, lines, parse);
  }

  /** `Run` of `a + b` when `a` faults or is finished; see `RunSplit`. */
  ghost predicate SplitsAt(s: State, a: seq<Line>, b: seq<Line>, parse: string -> ArtifactParse)
  {
    var ta := Run(s, a, parse);
    Run(s, a + b, parse) == if ta.fault.Some? then ta else After(ta.emitted, Run(ta.final, b, parse))
  }

  /** Running `a + b` is running `a` and then, unless `a` faulted, `b` from where `a` ended. */
  lemma {:induction false} RunSplit(s: State, a: seq<Line>, b: seq<Line>, parse: string -> ArtifactParse)
    ensures SplitsAt(s, a, b, parse)
    decreases |a|
  {
    if a == [] {
      assert a + b == b;
    } else {
      var r := Step(s, a[0], parse);
      if r.Stepped? {
        RunSplit(r.next, a[1..], b, parse);
      }
      SplitStep(s, a, b, parse);
    }
  }

  /** The inductive step of `RunSplit`: the split property carries over one line. */
  lemma SplitStep(s: State, a: seq<Line>, b: seq<Line>, parse: string -> ArtifactParse)
    requires a != []
    requires Step(s, a[0], parse).Stepped? ==> SplitsAt(Step(s, a[0], parse).next, a[1..], b, parse)
    ensures SplitsAt(s, a, b, parse)
  {
    assert (a + b)[0] == a[0];
    assert (a + b)[1..] == a[1..] + b;
    RunUnfold(s, a, parse);
    RunUnfold(s, a + b, parse);
    var r := Step(s, a[0], parse);
    if r.Stepped? {
      var rest := Run(r.next, a[1..], parse);
      if rest.fault.None? {
        var tb := Run(rest.final, b, parse);
        assert r.chunks + (rest.emitted + tb.emitted) == (r.chunks + rest.emitted) + tb.emitted;
      }
    }
  }

  /**
   * The buffer is append-only over a whole run: it ends as it began followed by every
   * emitted chunk, in order.
   */
  lemma {:induction false} RunAppendsOnly(s: State, lines: seq<Line>, parse: string -> ArtifactParse)
    ensures Run(s, lines, parse).final.buffer == s.buffer + Concat(Run(s, lines, parse).emitted)
    ensures s.buffer <= Run(s, lines, parse).final.buffer
    decreases |lines|
  {
    if lines != [] {
      RunUnfold(s, lines, parse);
      var r := Step(s, lines[0], parse);
      if r.Stepped? {
        var rest := Run(r.next, lines[1..], parse);
        RunAppendsOnly(r.next, lines[1..], parse);
        ConcatAppend(r.chunks, rest.emitted);
      }
    }
  }

  /** Every run keeps `Inv`: buffered fragments imply an open artifact. */
  lemma {:induction false} RunKeepsInv(s: State, lines: seq<Line>, parse: string -> ArtifactParse)
    requires Inv(s)
    ensures Inv(Run(s, lines, parse).final)
    decreases |lines|
  {
    if lines != [] {
      RunUnfold(s, lines, parse);
      var r := Step(s, lines[0], parse);
      if r.Stepped? {
        RunKeepsInv(r.next, lines[1..], parse);
      }
    }
  }

  /** Lines that no branch acts on leave all five variables as they were and append nothing. */
  lemma {:induction false} IgnoredLinesChangeNothing(s: State, lines: seq<Line>, parse: string -> ArtifactParse)
    requires forall i :: 0 <= i < |lines| ==> Ignored(lines[i])
    ensures Run(s, lines, parse) == Trace(s, [], None)
    decreases |lines|
  {
    if lines != [] {
      IgnoredLinesChangeNothing(s, lines[1..], parse);
    }
  }

  /** `text_delta` events carrying `texts`, in order. */
  function TextDeltas(texts: seq<string>): (lines: seq<Line>)
    ensures |lines| == |texts|
  {
    seq(|texts|, i requires 0 <= i < |texts| => BlockDelta(Some("text_delta"), Some(texts[i]), None))
  }

  /** A run of text deltas appends exactly their texts, in order, and touches nothing else. */
  lemma {:induction false} TextDeltasAppend(s: State, texts: seq<string>, parse: string -> ArtifactParse)
    ensures Run(s, TextDeltas(texts), parse) == Trace(s.(buffer := s.buffer + Concat(texts)), texts, None)
    decreases |texts|
  {
    if texts != [] {
      var lines := TextDeltas(texts);
      assert lines[1..] == TextDeltas(texts[1..]);
      var next := s.(buffer := s.buffer + texts[0]);
      TextDeltasAppend(next, texts[1..], parse);
      assert next.buffer + Concat(texts[1..]) == s.buffer + Concat(texts);
    }
  }

  /** `input_json_delta` events carrying `fragments`, in order. */
  function JsonDeltas(fragments: seq<string>): (lines: seq<Line>)
    ensures |lines| == |fragments|
  {
    seq(|fragments|, i requires 0 <= i < |fragments| => BlockDelta(Some("input_json_delta"), None, Some(fragments[i])))
  }

  /** Inside an artifact, JSON fragments accumulate in order and nothing is appended to the buffer. */
  lemma {:induction false} JsonDeltasAccumulate(s: State, fragments: seq<string>, parse: string -> ArtifactParse)
    requires s.inArtifact
    ensures Run(s, JsonDeltas(fragments), parse) == Trace(s.(artifactJson := s.artifactJson + Concat(fragments)), [], None)
    decreases |fragments|
  {
    if fragments != [] {
      var lines := JsonDeltas(fragments);
      assert lines[1..] == JsonDeltas(fragments[1..]);
      var next := s.(artifactJson := s.artifactJson + fragments[0]);
      JsonDeltasAccumulate(next, fragments[1..], parse);
      assert next.artifactJson + Concat(fragments[1..]) == s.artifactJson + Concat(fragments);
    }
  }

  /** Outside an artifact, JSON fragments are dropped. */
  lemma {:induction false} JsonDeltasDropped(s: State, fragments: seq<string>, parse: string -> ArtifactParse)
    requires !s.inArtifact
    ensures Run(s, JsonDeltas(fragments), parse) == Trace(s, [], None)
    decreases |fragments|
  {
    if fragments != [] {
      assert JsonDeltas(fragments)[1..] == JsonDeltas(fragments[1..]);
      JsonDeltasDropped(s, fragments[1..], parse);
    }
  }

  /** An artifact block: its start at `index`, its JSON fragments, its stop at `index`. */
  function ArtifactBlock(index: int, fragments: seq<string>): seq<Line>
  {
    [BlockStart(Some(index), Some("tool_use"), Some("artifacts"))] + JsonDeltas(fragments) + [BlockStop(Some(index))]
  }

  /**
   * A whole artifact block appends exactly the rendering of its concatenated fragments
   * and leaves the decoder out of artifact mode; a payload that is not an object
   * aborts the stream instead.
   */
  lemma ArtifactBlockRenders(s: State, index: int, fragments: seq<string>, parse: string -> ArtifactParse)
    ensures var t := Run(s, ArtifactBlock(index, fragments), parse);
            match RenderArtifact(parse(Concat(fragments)))
            case None => t.fault == Some(ArtifactNotObject) && t.emitted == []
            case Some(chunks) => t == Trace(State(s.buffer + Concat(chunks), "", false, None, s.newMessageUuid), chunks, None)
  {
    var start := [BlockStart(Some(index), Some("tool_use"), Some("artifacts"))];
    var stop := [BlockStop(Some(index))];
    var deltas := JsonDeltas(fragments);
    var started := s.(currentIndex := Some(index), inArtifact := true, artifactJson := "");
    RunUnfold(s, start, parse);
    assert Run(s, start, parse) == Trace(started, [], None);
    JsonDeltasAccumulate(started, fragments, parse);
    var filled := started.(artifactJson := Concat(fragments));
    RunSplit(s, start, deltas, parse);
    assert Run(s, start + deltas, parse) == Trace(filled, [], None);
    RunSplit(s, start + deltas, stop, parse);
    assert ArtifactBlock(index, fragments) == start + deltas + stop;
    CloseRenders(filled, index, parse);
  }

  /** The closing stop of an open artifact at `index`. */
  lemma CloseRenders(s: State, index: int, parse: string -> ArtifactParse)
    requires s.inArtifact && s.currentIndex == Some(index)
    ensures var t := Run(s, [BlockStop(Some(index))], parse);
            match RenderArtifact(parse(s.artifactJson))
            case None => t == Trace(s, [], Some(ArtifactNotObject))
            case Some(chunks) => t == Trace(State(s.buffer + Concat(chunks), "", false, None, s.newMessageUuid), chunks, None)
  {
    RunUnfold(s, [BlockStop(Some(index))], parse);
    assert Closes(s, BlockStop(Some(index)));
    assert [BlockStop(Some(index))][1..] == [];
  }

  /**
   * A non-artifact block that starts inside an artifact takes over `current_index` without
   * leaving artifact mode: the artifact's own stop is then ignored, and the inner
   * block's stop closes the artifact.
   */
  lemma InnerBlockTakesOverClose(s: State, outer: int, inner: int, parse: string -> ArtifactParse)
    requires s.inArtifact && s.currentIndex == Some(outer) && outer != inner
    ensures var t := Run(s, [BlockStart(Some(inner), Some("text"), None), BlockStop(Some(outer))], parse);
            t == Trace(s.(currentIndex := Some(inner)), [], None)
    ensures var t := Run(s, [BlockStart(Some(inner), Some("text"), None), BlockStop(Some(inner))], parse);
            !parse(s.artifactJson).NotAnObject? ==> t.fault.None? && !t.final.inArtifact && t.final.artifactJson == ""
  {
    var retargeted := s.(currentIndex := Some(inner));
    assert Step(s, BlockStart(Some(inner), Some("text"), None), parse) == Stepped(retargeted, []);
    var l1 := [BlockStart(Some(inner), Some("text"), None), BlockStop(Some(outer))];
    assert l1[1..] == [BlockStop(Some(outer))];
    assert Run(retargeted, [BlockStop(Some(outer))], parse) == Trace(retargeted, [], None);
    var l2 := [BlockStart(Some(inner), Some("text"), None), BlockStop(Some(inner))];
    assert l2[1..] == [BlockStop(Some(inner))];
    RunUnfold(s, l2, parse);
    assert Run(s, l2, parse) == After([], Run(retargeted, [BlockStop(Some(inner))], parse));
    CloseRenders(retargeted, inner, parse);
  }

  /** The loop variables as fields, and the loop body as a method that updates them in place. */
  class Decoder {
    var buffer: string
    var artifactJson: string
    var inArtifact: bool
    var currentIndex: Option<int>
    var newMessageUuid: Option<string>

    function Model(): State
      reads this
    {
      State(buffer, artifactJson, inArtifact, currentIndex, newMessageUuid)
    }

    constructor ()
      ensures Model() == Initial
    {
      buffer, artifactJson, inArtifact, currentIndex, newMessageUuid := "", "", false, None, None;
    }

    /**
     * Processes one line. Without a fault the fields move as `Step` says and `chunks`
     * is what was appended to the buffer; with one, nothing changed.
     */
    method Feed(line: Line, parse: string -> ArtifactParse) returns (chunks: seq<string>, fault: Option<Fault>)
      modifies this
      ensures fault.None? ==> Step(old(Model()), line, parse) == Stepped(Model(), chunks)
      ensures fault.Some? ==> Step(old(Model()), line, parse) == Failed(fault.value) && Model() == old(Model())
    {
      chunks, fault := [], None;
      match line {
        case NonObject =>
          fault := Some(PayloadNotObject);
        case MessageStart(uuid) =>
          newMessageUuid := uuid;
        case BlockStart(index, blockType, name) =>
          currentIndex := index;
          if blockType == Some("tool_use") && name == Some("artifacts") {
            inArtifact := true;
            artifactJson := "";
          }
        case BlockDelta(kind, text, partialJson) =>
          if kind == Some("text_delta") {
            if text.None? {
              fault := Some(MissingText);
              return;
            }
            buffer := buffer + text.value;
            chunks := [text.value];
          } else if kind == Some("input_json_delta") && inArtifact {
            if partialJson.None? {
              fault := Some(MissingPartialJson);
              return;
            }
            artifactJson := artifactJson + partialJson.value;
          }
        case BlockStop(index) =>
          if inArtifact && index == currentIndex {
            var rendered := RenderArtifact(parse(artifactJson));
            if rendered.None? {
              fault := Some(ArtifactNotObject);
              return;
            }
            chunks := rendered.value;
            buffer := buffer + Concat(chunks);
            inArtifact, artifactJson, currentIndex := false, "", None;
          }
        case _ =>
      }
    }
  }
}
