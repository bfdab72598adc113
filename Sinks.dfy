/**
 * The two read loops of `chat` (src/cli/chat.py), as two sinks over the one shared
 * transition: the live view re-renders the whole buffer after every change, the raw
 * output echoes each appended chunk and may save the buffer to a file.
 */
module Sinks {
  import opened Wrappers
  import opened Text
  import opened Stream

  /** The one `open(output, 'w').write(...)` of the raw loop. */
  datatype FileWrite = FileWrite(path: string, contents: string)

  /**
   * The buffers the live view is updated with, from state `s`: the whole buffer after
   * every step that appended something (a text delta or an artifact close), up to the
   * first fault.
   */
  function LiveViews(s: State, lines: seq<Line>, parse: string -> ArtifactParse): seq<string>
    decreases |lines|
  {
    if lines == [] then []
    else
      var r := Step(s, lines[0], parse);
      if r.Failed? then [] else Shown(r.next, r.chunks) + LiveViews(r.next, lines[1..], parse)
  }

  /** The update a step makes: the new buffer when it appended something, none otherwise. */
  function Shown(next: State, chunks: seq<string>): seq<string>
  {
    if chunks != [] then [next.buffer] else []
  }

  /** One unfolding of `LiveViews` on a non-empty sequence of lines. */
  lemma LiveViewsUnfold(s: State, lines: seq<Line>, parse: string -> ArtifactParse)
    requires lines != []
    ensures var r := Step(s, lines[0], parse);
            LiveViews(s, lines, parse) == if r.Failed? then [] else Shown(r.next, r.chunks) + LiveViews(r.next, lines[1..], parse)
  {
  }

  /** Advancing by one line that steps: its update, if any, moves to the views already shown. */
  lemma LiveViewsAdvance(views: seq<string>, s: State, lines: seq<Line>, parse: string -> ArtifactParse, next: State, chunks: seq<string>)
    requires lines != [] && Step(s, lines[0], parse) == Stepped(next, chunks)
    ensures views + LiveViews(s, lines, parse) == (views + Shown(next, chunks)) + LiveViews(next, lines[1..], parse)
  {
    LiveViewsUnfold(s, lines, parse);
    var rest := LiveViews(next, lines[1..], parse);
    assert views + (Shown(next, chunks) + rest) == (views + Shown(next, chunks)) + rest;
  }

  /**
   * The live loop. The snapshots are exactly the buffers `live.update` is called with,
   * one per text delta and per artifact close, in order; they only grow, and the last one
   * is the final buffer. The decoder ends as `Run` says.
   */
  method LiveLoop(lines: seq<Line>, parse: string -> ArtifactParse) returns (snapshots: seq<string>, final: State, fault: Option<Fault>)
    ensures Run(Initial, lines, parse).final == final && Run(Initial, lines, parse).fault == fault
    ensures snapshots == LiveViews(Initial, lines, parse)
  {
    var decoder := new Decoder();
    snapshots, fault := [], None;
    ghost var emitted: seq<string> := [];
    var i := 0;
    LiveStart(lines, parse);
    while i < |lines|
      invariant LiveOnCourse(lines, parse, emitted, snapshots, decoder.Model(), i)
      invariant fault.None?
    {
      ghost var before := decoder.Model();
      var chunks, f := decoder.Feed(lines[i], parse);
      if f.Some? {
        LiveStop(lines, parse, emitted, snapshots, before, i, f.value);
        fault := f;
        break;
      }
      LiveStep(lines, parse, emitted, snapshots, before, i, decoder.Model(), chunks);
      snapshots := snapshots + Shown(decoder.Model(), chunks);
      emitted := emitted + chunks;
      i := i + 1;
    }
    final := decoder.Model();
    if fault.None? {
      LiveDone(lines, parse, emitted, snapshots, final, i);
    }
  }

  /** The live loop after `i` lines, in state `s`: what is left of the run and of the views is still to come. */
  ghost predicate LiveOnCourse(lines: seq<Line>, parse: string -> ArtifactParse, emitted: seq<string>, snapshots: seq<string>, s: State, i: nat)
  {
    && i <= |lines|
    && Run(Initial, lines, parse) == After(emitted, Run(s, lines[i..], parse))
    && LiveViews(Initial, lines, parse) == snapshots + LiveViews(s, lines[i..], parse)
  }

  lemma LiveStart(lines: seq<Line>, parse: string -> ArtifactParse)
    ensures LiveOnCourse(lines, parse, [], [], Initial, 0)
  {
    assert lines[0..] == lines;
  }

  /** A line that steps keeps the live loop on course. */
  lemma LiveStep(lines: seq<Line>, parse: string -> ArtifactParse, emitted: seq<string>, snapshots: seq<string>, s: State, i: nat,
                 next: State, chunks: seq<string>)
    requires LiveOnCourse(lines, parse, emitted, snapshots, s, i) && i < |lines|
    requires Step(s, lines[i], parse) == Stepped(next, chunks)
    ensures LiveOnCourse(lines, parse, emitted + chunks, snapshots + Shown(next, chunks), next, i + 1)
  {
    assert lines[i..][0] == lines[i] && lines[i..][1..] == lines[i + 1..];
    RunAdvance(emitted, s, lines[i..], parse, next, chunks);
    LiveViewsAdvance(snapshots, s, lines[i..], parse, next, chunks);
  }

  /** A line that faults ends the run and the views where the loop stands. */
  lemma LiveStop(lines: seq<Line>, parse: string -> ArtifactParse, emitted: seq<string>, snapshots: seq<string>, s: State, i: nat, fault: Fault)
    requires LiveOnCourse(lines, parse, emitted, snapshots, s, i) && i < |lines|
    requires Step(s, lines[i], parse) == Failed(fault)
    ensures Run(Initial, lines, parse).final == s && Run(Initial, lines, parse).fault == Some(fault)
    ensures LiveViews(Initial, lines, parse) == snapshots
  {
    assert lines[i..][0] == lines[i];
    RunStops(s, lines[i..], parse, fault);
    LiveViewsUnfold(s, lines[i..], parse);
    assert snapshots + [] == snapshots;
  }

  /** Past the last line the run and the views are complete. */
  lemma LiveDone(lines: seq<Line>, parse: string -> ArtifactParse, emitted: seq<string>, snapshots: seq<string>, s: State, i: nat)
    requires LiveOnCourse(lines, parse, emitted, snapshots, s, i) && i >= |lines|
    ensures Run(Initial, lines, parse).final == s && Run(Initial, lines, parse).fault.None?
    ensures LiveViews(Initial, lines, parse) == snapshots
  {
    assert lines[i..] == [];
    assert snapshots + [] == snapshots;
  }

  /** Every snapshot is a prefix of the next one. */
  predicate Growing(snapshots: seq<string>)
  {
    forall k :: 0 < k < |snapshots| ==> snapshots[k - 1] <= snapshots[k]
  }

  /** Growing snapshots are prefix-ordered pairwise, not only neighbour by neighbour. */
  lemma {:induction false} GrowingPairwise(snapshots: seq<string>, a: nat, b: nat)
    requires Growing(snapshots) && a <= b < |snapshots|
    ensures snapshots[a] <= snapshots[b]
    decreases b - a
  {
    if a < b {
      GrowingPairwise(snapshots, a, b - 1);
      PrefixTransitive(snapshots[a], snapshots[b - 1], snapshots[b]);
    }
  }

  lemma PrefixTransitive(a: string, b: string, c: string)
    requires a <= b && b <= c
    ensures a <= c
  {
    assert a == b[..|a|] && b[..|a|] == c[..|a|];
  }

  /** The buffer shown by the latest snapshot; empty before the first. */
  function Last(snapshots: seq<string>): string
  {
    if snapshots == [] then "" else snapshots[|snapshots| - 1]
  }

  /**
   * The live view follows the buffer: every update extends the buffer as it was and
   * the earlier updates, and the buffer a run ends with is the last one shown (or the
   * starting buffer when nothing was shown).
   */
  lemma {:induction false} LiveViewsTrackBuffer(s: State, lines: seq<Line>, parse: string -> ArtifactParse)
    ensures var views := LiveViews(s, lines, parse);
            && Growing(views)
            && (views != [] ==> s.buffer <= views[0])
            && Run(s, lines, parse).final.buffer == if views == [] then s.buffer else Last(views)
    decreases |lines|
  {
    if lines != [] {
      RunUnfold(s, lines, parse);
      LiveViewsUnfold(s, lines, parse);
      var r := Step(s, lines[0], parse);
      if r.Stepped? {
        LiveViewsTrackBuffer(r.next, lines[1..], parse);
        assert r.chunks == [] ==> Concat(r.chunks) == "";
        ShownFirst(s.buffer, r.next.buffer, Shown(r.next, r.chunks), LiveViews(r.next, lines[1..], parse),
                   Run(r.next, lines[1..], parse).final.buffer);
      }
    }
  }

  /**
   * One step's update in front of the rest of the views: the updates keep growing from
   * the starting buffer, and the last one is still the final buffer.
   */
  lemma ShownFirst(start: string, buffer: string, shown: seq<string>, rest: seq<string>, final: string)
    requires start <= buffer && (shown == [buffer] || (shown == [] && buffer == start))
    requires Growing(rest) && (rest != [] ==> buffer <= rest[0])
    requires final == if rest == [] then buffer else Last(rest)
    ensures var views := shown + rest;
            && Growing(views)
            && (views != [] ==> start <= views[0])
            && final == if views == [] then start else Last(views)
  {
    var views := shown + rest;
    if shown == [] {
      assert views == rest;
    } else {
      forall k | 0 < k < |views|
        ensures views[k - 1] <= views[k]
      {
        assert views[k] == rest[k - 1];
        if k > 1 {
          assert views[k - 1] == rest[k - 2];
        }
      }
    }
  }

  /**
   * The raw loop. The echoed chunks are exactly those the run emits, followed by one
   * newline when the stream completes, so they concatenate to the final buffer and
   * that newline. When the stream completes and a file is named, the file receives
   * exactly the final buffer if it can be written (`writable`); otherwise the save fails,
   * which the caller treats like any other error.
   */
  method RawLoop(lines: seq<Line>, output: Option<string>, writable: bool, parse: string -> ArtifactParse)
    returns (echoed: seq<string>, saved: Option<FileWrite>, saveFailed: bool, final: State, fault: Option<Fault>)
    ensures var t := Run(Initial, lines, parse);
            && t.final == final && t.fault == fault
            && echoed == (if fault.None? then t.emitted + ["\n"] else t.emitted)
    ensures fault.None? ==> Concat(echoed) == final.buffer + "\n"
    ensures fault.Some? ==> Concat(echoed) == final.buffer
    ensures saved == if fault.None? && Truthy(output) && writable then Some(FileWrite(output.value, final.buffer)) else None
    ensures saveFailed <==> fault.None? && Truthy(output) && !writable
  {
    echoed, final, fault := EchoChunks(lines, parse);
    saved, saveFailed := None, false;
    if fault.None? {
      ConcatAppend(echoed, ["\n"]);
      echoed := echoed + ["\n"];
      if Truthy(output) {
        if writable {
          saved := Some(FileWrite(output.value, final.buffer));
        } else {
          saveFailed := true;
        }
      }
    }
  }

  /** The read loop of the raw output: the chunks it writes are exactly those the run emits. */
  method EchoChunks(lines: seq<Line>, parse: string -> ArtifactParse) returns (echoed: seq<string>, final: State, fault: Option<Fault>)
    ensures var t := Run(Initial, lines, parse);
            t.final == final && t.fault == fault && t.emitted == echoed
    ensures Concat(echoed) == final.buffer
  {
    var decoder := new Decoder();
    echoed, fault := [], None;
    var i := 0;
    while i < |lines|
      invariant 0 <= i <= |lines|
      invariant fault.None?
      invariant Run(Initial, lines, parse) == After(echoed, Run(decoder.Model(), lines[i..], parse))
      invariant decoder.buffer == Concat(echoed)
    {
      ghost var before := decoder.Model();
      assert lines[i..][0] == lines[i] && lines[i..][1..] == lines[i + 1..];
      var chunks, f := decoder.Feed(lines[i], parse);
      if f.Some? {
        RunStops(before, lines[i..], parse, f.value);
        fault := f;
        break;
      }
      RunAdvance(echoed, before, lines[i..], parse, decoder.Model(), chunks);
      ConcatAppend(echoed, chunks);
      echoed := echoed + chunks;
      i := i + 1;
    }
    final := decoder.Model();
    if fault.None? {
      assert lines[i..] == [];
    }
  }
}
