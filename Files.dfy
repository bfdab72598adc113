/**
 * `@file` references in a prompt and the attachments built from them (src/file.py).
 * The file system and Python's `mimetypes` are oracles.
 */
module Files {
  import opened Wrappers
  import opened Text

  // ---------------------------------------------------------------------------
  // MIME type fallback

  /** The fallback table of `get_mime_type`: lower-case suffix to MIME type. */
  const FallbackTable: seq<(string, string)> := [
    (".py", "text/x-python"),
    (".js", "text/javascript"),
    (".ts", "text/typescript"),
    (".jsx", "text/jsx"),
    (".tsx", "text/tsx"),
    (".json", "application/json"),
    (".md", "text/markdown"),
    (".txt", "text/plain"),
    (".html", "text/html"),
    (".css", "text/css"),
    (".xml", "text/xml"),
    (".yaml", "text/yaml"),
    (".yml", "text/yaml"),
    (".sh", "text/x-shellscript"),
    (".bat", "text/x-batch")
  ]

  /** `dict.get(key)` on a table given as a list of pairs: the first entry for `key`. */
  function Lookup(table: seq<(string, string)>, key: string): Option<string>
  {
    if table == [] then None
    else if table[0].0 == key then Some(table[0].1)
    else Lookup(table[1..], key)
  }

  /** A key is found exactly when some entry has it, and then with that entry's value. */
  lemma {:induction false} LookupFinds(table: seq<(string, string)>, key: string)
    ensures Lookup(table, key).Some? <==> exists k :: 0 <= k < |table| && table[k].0 == key
    ensures Lookup(table, key).Some? ==> exists k :: 0 <= k < |table| && table[k] == (key, Lookup(table, key).value)
  {
    if table != [] && table[0].0 != key {
      LookupFinds(table[1..], key);
      assert forall k :: 1 <= k < |table| ==> table[k] == table[1..][k - 1];
      if Lookup(table, key).Some? {
        var k :| 0 <= k < |table[1..]| && table[1..][k] == (key, Lookup(table, key).value);
        assert table[k + 1] == table[1..][k];
      }
    }
  }

  /** Every key of the table is a dot and at least one more character; every type is non-empty. */
  lemma FallbackTableShape()
    ensures forall k :: 0 <= k < |FallbackTable| ==>
              |FallbackTable[k].0| >= 2 && FallbackTable[k].0[0] == '.' && FallbackTable[k].1 != ""
  {
  }

  /** The fallback table yields no empty type, and nothing for a key that is not an extension. */
  lemma FallbackLookup(key: string)
    ensures Lookup(FallbackTable, key).Some? ==> Lookup(FallbackTable, key).value != "" && |key| >= 2 && key[0] == '.'
  {
    LookupFinds(FallbackTable, key);
    FallbackTableShape();
  }

  /** The last `/`-separated component of a path (`Path(p).name`). */
  function BaseName(path: string): string
    decreases |path|
  {
    if path == [] then []
    else if path[|path| - 1] == '/' then []
    else BaseName(path[..|path| - 1]) + [path[|path| - 1]]
  }

  /** The base name is the longest `/`-free tail of the path. */
  lemma {:induction false} BaseNameIsLastComponent(path: string)
    ensures var name := BaseName(path);
            && '/' !in name
            && |name| <= |path| && name == path[|path| - |name|..]
            && (|name| < |path| ==> path[|path| - |name| - 1] == '/')
    decreases |path|
  {
    if path != [] && path[|path| - 1] != '/' {
      var init := path[..|path| - 1];
      BaseNameIsLastComponent(init);
      var name := BaseName(init);
      assert path[|path| - |name| - 1..] == init[|init| - |name|..] + [path[|path| - 1]];
    }
  }

  /** The position of the last `.` in `name`, if any. */
  function LastDot(name: string): Option<nat>
    decreases |name|
  {
    if name == [] then None
    else if name[|name| - 1] == '.' then Some(|name| - 1)
    else LastDot(name[..|name| - 1])
  }

  lemma {:induction false} LastDotIsLast(name: string)
    ensures var i := LastDot(name);
            && (i.Some? ==> i.value < |name| && name[i.value] == '.' && '.' !in name[i.value + 1..])
            && (i.None? ==> '.' !in name)
    decreases |name|
  {
    if name != [] && name[|name| - 1] != '.' {
      var init := name[..|name| - 1];
      LastDotIsLast(init);
      assert name == init + [name[|name| - 1]];
      if LastDot(init).Some? {
        var i := LastDot(init).value;
        assert name[i + 1..] == init[i + 1..] + [name[|name| - 1]];
      }
    }
  }

  /**
   * `Path(...).suffix` of a file name: from its last dot on, provided that dot is neither
   * the first nor the last character; otherwise empty.
   */
  function Suffix(name: string): string
  {
    match LastDot(name)
    case Some(i) => if 0 < i < |name| - 1 then name[i..] else ""
    case None => ""
  }

  /** A non-empty suffix is a dot and at least one dot-free character, ending the name. */
  lemma SuffixShape(name: string)
    ensures var r := Suffix(name);
            r != "" ==> && 2 <= |r| < |name|
                        && r == name[|name| - |r|..]
                        && r[0] == '.' && '.' !in r[1..]
  {
    LastDotIsLast(name);
    if LastDot(name).Some? {
      var i := LastDot(name).value;
      if 0 < i < |name| - 1 {
        assert name[i..][1..] == name[i + 1..];
      }
    }
  }

  /** The key the fallback table is consulted with: the lower-cased suffix of the base name. */
  function FallbackKey(path: string): string
  {
    Lower(Suffix(BaseName(path)))
  }

  /**
   * `get_mime_type`: the library's guess when it has one; otherwise the table entry for
   * the fallback key, or `text/plain` for a key not in the table. Never empty.
   */
  function MimeType(path: string, guessed: Option<string>): (m: string)
    ensures guessed.Some? ==> m == guessed.value
    ensures guessed.None? ==> m == Lookup(FallbackTable, FallbackKey(path)).GetOr("text/plain")
    ensures m == "" ==> guessed == Some("")
  {
    FallbackLookup(FallbackKey(path));
    if guessed.Some? then guessed.value
    else Lookup(FallbackTable, FallbackKey(path)).GetOr("text/plain")
  }

  /** The base name of a path is whatever follows its last `/`. */
  lemma {:induction false} BaseNameAfterSlash(dir: string, name: string)
    requires '/' !in name
    ensures BaseName(dir + "/" + name) == name
    decreases |name|
  {
    var p := dir + "/" + name;
    if name == [] {
      assert p[|p| - 1] == '/';
    } else {
      var init := name[..|name| - 1];
      assert p[..|p| - 1] == dir + "/" + init;
      assert '/' !in init by {
        forall k | 0 <= k < |init| ensures init[k] != '/' {
          assert init[k] == name[k];
        }
      }
      BaseNameAfterSlash(dir, init);
      assert init + [name[|name| - 1]] == name;
    }
  }

  /** The fallback key is already lower-case, whatever the case of the path. */
  lemma FallbackKeyIsLowerCase(path: string)
    ensures Lower(FallbackKey(path)) == FallbackKey(path)
  {
    LowerIdempotent(Suffix(BaseName(path)));
  }

  /**
   * A file name made of a non-empty stem and an extension (a dot followed by at least one
   * dot-free character) is looked up by its lower-cased extension, whatever directory it
   * is in and whatever dots that directory holds.
   */
  lemma FallbackUsesExtension(dir: string, stem: string, ext: string)
    requires '/' !in stem + ext && stem != [] && |ext| >= 2 && ext[0] == '.' && '.' !in ext[1..]
    ensures FallbackKey(dir + "/" + (stem + ext)) == Lower(ext)
  {
    BaseNameAfterSlash(dir, stem + ext);
    SuffixIsExtension(stem, ext);
  }

  /** The suffix of a stem followed by an extension is that extension. */
  lemma SuffixIsExtension(stem: string, ext: string)
    requires stem != [] && |ext| >= 2 && ext[0] == '.' && '.' !in ext[1..]
    ensures Suffix(stem + ext) == ext
  {
    var name := stem + ext;
    LastDotIsLast(name);
    var i := LastDot(name).value;
    assert name[|stem|] == '.';
    assert forall k :: i < k < |name| ==> name[k] == name[i + 1..][k - i - 1];
    assert forall k :: |stem| < k < |name| ==> name[k] == ext[1..][k - |stem| - 1];
    assert i == |stem|;
    assert name[i..] == ext;
  }

  /** A leading dot is not a suffix, so a dot-file without another dot falls back to `text/plain`. */
  lemma DotFileIsPlainText(dir: string, name: string)
    requires '/' !in name && |name| >= 1 && name[0] == '.' && '.' !in name[1..]
    ensures FallbackKey(dir + "/" + name) == ""
    ensures MimeType(dir + "/" + name, None) == "text/plain"
  {
    BaseNameAfterSlash(dir, name);
    LastDotIsLast(name);
    var i := LastDot(name).value;
    assert forall k :: 0 < k < |name| ==> name[k] == name[1..][k - 1];
    assert i == 0;
    assert Suffix(name) == "";
    assert Lower("") == "";
    FallbackLookup("");
  }

  // ---------------------------------------------------------------------------
  // Finding references: the regex `@([^\s]+)` under `re.finditer`

  /** A match of `@([^\s]+)`: the `@` at `start`, the path up to `end`. */
  datatype Span = Span(start: nat, end: nat)

  /** `(match.group(0), match.group(1))`. */
  datatype Reference = Reference(matchText: string, filePath: string)

  /** A match can begin at `i`: an `@` followed by a non-whitespace character. */
  predicate MatchStartsAt(s: string, i: nat)
  {
    i + 1 < |s| && s[i] == '@' && !IsSpace(s[i + 1])
  }

  /** A span that the greedy pattern can produce: `@`, then a maximal run of non-whitespace. */
  predicate ValidSpan(s: string, sp: Span)
  {
    && sp.start + 1 < sp.end <= |s|
    && s[sp.start] == '@'
    && (forall m :: sp.start < m < sp.end ==> !IsSpace(s[m]))
    && (sp.end == |s| || IsSpace(s[sp.end]))
  }

  /** The end of the run of non-whitespace that starts at `k`. */
  function RunEnd(s: string, k: nat): (j: nat)
    requires k <= |s|
    ensures k <= j <= |s|
    ensures forall m :: k <= m < j ==> !IsSpace(s[m])
    ensures j == |s| || IsSpace(s[j])
    decreases |s| - k
  {
    if k == |s| || IsSpace(s[k]) then k else RunEnd(s, k + 1)
  }

  /**
   * The matches `finditer` yields from position `i` on: leftmost first, greedy, and the
   * search resumes where the previous match ended.
   */
  function MatchesFrom(s: string, i: nat): (spans: seq<Span>)
    requires i <= |s|
    ensures forall k :: 0 <= k < |spans| ==> ValidSpan(s, spans[k]) && i <= spans[k].start
    ensures forall k :: 0 < k < |spans| ==> spans[k - 1].end < spans[k].start
    decreases |s| - i
  {
    if i == |s| then []
    else if MatchStartsAt(s, i) then [Span(i, RunEnd(s, i + 1))] + MatchesFrom(s, RunEnd(s, i + 1))
    else MatchesFrom(s, i + 1)
  }

  function ToReference(s: string, sp: Span): Reference
    requires ValidSpan(s, sp)
  {
    Reference(s[sp.start..sp.end], s[sp.start + 1..sp.end])
  }

  /** The references a sequence of valid spans stands for, in order. */
  function ReferencesOf(s: string, spans: seq<Span>): seq<Reference>
    requires forall k :: 0 <= k < |spans| ==> ValidSpan(s, spans[k])
  {
    seq(|spans|, k requires 0 <= k < |spans| => ToReference(s, spans[k]))
  }

  /** `find_file_references` as a value. */
  function References(s: string): seq<Reference>
  {
    ReferencesOf(s, MatchesFrom(s, 0))
  }

  lemma ReferencesOfAppend(s: string, spans: seq<Span>, sp: Span)
    requires forall k :: 0 <= k < |spans| ==> ValidSpan(s, spans[k])
    requires ValidSpan(s, sp)
    ensures ReferencesOf(s, spans + [sp]) == ReferencesOf(s, spans) + [ToReference(s, sp)]
  {
    assert forall k :: 0 <= k < |spans| ==> (spans + [sp])[k] == spans[k];
  }

  /** What each reference looks like: a non-empty path free of whitespace, after an `@`. */
  predicate WellFormed(r: Reference)
  {
    && r.filePath != []
    && (forall c :: c in r.filePath ==> !IsSpace(c))
    && r.matchText == "@" + r.filePath
  }

  /** A valid span yields a well-formed reference. */
  lemma SpanWellFormed(s: string, sp: Span)
    requires ValidSpan(s, sp)
    ensures WellFormed(ToReference(s, sp))
  {
    var r := ToReference(s, sp);
    assert r.matchText == [s[sp.start]] + s[sp.start + 1..sp.end];
    forall c | c in r.filePath ensures !IsSpace(c) {
      var m :| 0 <= m < |r.filePath| && r.filePath[m] == c;
      assert c == s[sp.start + 1 + m];
    }
  }

  /** Every reference the scan reports is well formed. */
  lemma ReferencesWellFormed(s: string)
    ensures forall k :: 0 <= k < |References(s)| ==> WellFormed(References(s)[k])
  {
    var spans := MatchesFrom(s, 0);
    forall k | 0 <= k < |spans| ensures WellFormed(References(s)[k]) {
      SpanWellFormed(s, spans[k]);
    }
  }

  /** The end of the run of non-whitespace from `k`, found by stepping over it. */
  method ScanRun(prompt: string, k: nat) returns (j: nat)
    requires k <= |prompt|
    ensures j == RunEnd(prompt, k)
  {
    j := k;
    while j < |prompt| && !IsSpace(prompt[j])
      invariant k <= j <= |prompt|
      invariant RunEnd(prompt, j) == RunEnd(prompt, k)
      decreases |prompt| - j
    {
      j := j + 1;
    }
  }

  /** The scan has recorded `spans` and resumes at `i`. */
  ghost predicate Scanned(s: string, spans: seq<Span>, i: nat)
  {
    && i <= |s|
    && spans + MatchesFrom(s, i) == MatchesFrom(s, 0)
    && (forall k :: 0 <= k < |spans| ==> ValidSpan(s, spans[k]))
  }

  /** A match at `i` is recorded, and the scan resumes after its run. */
  lemma MatchStep(s: string, spans: seq<Span>, i: nat)
    requires Scanned(s, spans, i) && MatchStartsAt(s, i)
    ensures ValidSpan(s, Span(i, RunEnd(s, i + 1)))
    ensures Scanned(s, spans + [Span(i, RunEnd(s, i + 1))], RunEnd(s, i + 1))
  {
    var sp := Span(i, RunEnd(s, i + 1));
    assert MatchesFrom(s, i) == [sp] + MatchesFrom(s, sp.end);
    assert (spans + [sp]) + MatchesFrom(s, sp.end) == spans + MatchesFrom(s, i);
  }

  /** No match starts at `i`, so the scan moves one character on. */
  lemma SkipStep(s: string, spans: seq<Span>, i: nat)
    requires Scanned(s, spans, i) && i < |s| && !MatchStartsAt(s, i)
    ensures Scanned(s, spans, i + 1)
  {
  }

  /**
   * `find_file_references`: scans the prompt left to right, taking each `@` followed by
   * non-whitespace together with the whole run of non-whitespace after it.
   */
  method FindFileReferences(prompt: string) returns (refs: seq<Reference>)
    ensures refs == References(prompt)
    ensures forall k :: 0 <= k < |refs| ==> WellFormed(refs[k])
  {
    refs := [];
    ghost var spans: seq<Span> := [];
    var i := 0;
    while i < |prompt|
      invariant Scanned(prompt, spans, i)
      invariant refs == ReferencesOf(prompt, spans)
      decreases |prompt| - i
    {
      if prompt[i] == '@' && i + 1 < |prompt| && !IsSpace(prompt[i + 1]) {
        var j := ScanRun(prompt, i + 1);
        MatchStep(prompt, spans, i);
        ReferencesOfAppend(prompt, spans, Span(i, j));
        refs := refs + [Reference(prompt[i..j], prompt[i + 1..j])];
        spans := spans + [Span(i, j)];
        i := j;
      } else {
        SkipStep(prompt, spans, i);
        i := i + 1;
      }
    }
    ReferencesWellFormed(prompt);
  }

  /** Every `@` followed by non-whitespace lies in some match: at its start, or inside its path. */
  lemma {:induction false} EveryMentionCovered(s: string, i: nat, p: nat)
    requires i <= p && i <= |s| && MatchStartsAt(s, p)
    ensures exists k :: 0 <= k < |MatchesFrom(s, i)| && MatchesFrom(s, i)[k].start <= p < MatchesFrom(s, i)[k].end
    decreases |s| - i
  {
    var spans := MatchesFrom(s, i);
    if MatchStartsAt(s, i) {
      var j := RunEnd(s, i + 1);
      if p < j {
        assert spans[0].start <= p < spans[0].end;
      } else {
        EveryMentionCovered(s, j, p);
        var k :| 0 <= k < |MatchesFrom(s, j)| && MatchesFrom(s, j)[k].start <= p < MatchesFrom(s, j)[k].end;
        assert spans[k + 1] == MatchesFrom(s, j)[k];
      }
    } else {
      EveryMentionCovered(s, i + 1, p);
    }
  }

  /** The scan finds nothing exactly when no `@` is followed by a non-whitespace character. */
  lemma {:induction false} NoReferencesIff(s: string, i: nat)
    requires i <= |s|
    ensures MatchesFrom(s, i) == [] <==> forall p :: i <= p < |s| ==> !MatchStartsAt(s, p)
    decreases |s| - i
  {
    if i < |s| {
      if MatchStartsAt(s, i) {
      } else {
        NoReferencesIff(s, i + 1);
      }
    }
  }

  /** A run of non-whitespace keeps inner `@`s in the path: `@a@b` is one reference to `a@b`. */
  lemma GreedyExample()
    ensures References("see @a@b now") == [Reference("@a@b", "a@b")]
  {
    var s := "see @a@b now";
    assert !MatchStartsAt(s, 0) && !MatchStartsAt(s, 1) && !MatchStartsAt(s, 2) && !MatchStartsAt(s, 3);
    assert MatchStartsAt(s, 4);
    assert RunEnd(s, 5) == 8;
    assert MatchesFrom(s, 8) == [];
    assert MatchesFrom(s, 0) == [Span(4, 8)];
    assert s[4..8] == "@a@b" && s[5..8] == "a@b";
    assert References(s)[0] == ToReference(s, Span(4, 8));
  }

  // ---------------------------------------------------------------------------
  // Building attachments

  /** The oracles: `resolve_file_path`, `read_file_content`, `os.path.getsize`, `mimetypes.guess_type`. */
  datatype FileSystem = FileSystem(
    resolve: string -> Option<string>,
    read: string -> Option<string>,
    size: string -> nat,
    guess: string -> Option<string>)

  datatype Attachment = Attachment(
    fileName: string,
    fileType: string,
    fileSize: nat,
    extractedContent: string,
    origin: string,
    kind: string)

  /** The attachment for one referenced path, or `None` when it does not resolve or cannot be read. */
  function Attach(path: string, fs: FileSystem): (a: Option<Attachment>)
    ensures a.Some? <==> Truthy(fs.resolve(path)) && fs.read(fs.resolve(path).value).Some?
    ensures a.Some? ==> var resolved := fs.resolve(path).value;
                        && a.value.fileName == path
                        && a.value.extractedContent == fs.read(resolved).value
                        && a.value.fileType == MimeType(resolved, fs.guess(resolved))
                        && a.value.fileSize == fs.size(resolved)
                        && a.value.origin == "user_upload" && a.value.kind == "file"
  {
    var resolved := fs.resolve(path);
    if Truthy(resolved) then
      var content := fs.read(resolved.value);
      if content.Some? then
        Some(Attachment(path, MimeType(resolved.value, fs.guess(resolved.value)), fs.size(resolved.value),
                        content.value, "user_upload", "file"))
      else None
    else None
  }

  /** The per-reference step of the loop on a given file system. */
  function AttachIn(fs: FileSystem): string -> Option<Attachment>
  {
    path => Attach(path, fs)
  }

  /** The referenced paths for which `attach` fails, in reference order, repeats included. */
  function Missing(refs: seq<Reference>, attach: string -> Option<Attachment>): (paths: seq<string>)
    ensures |paths| <= |refs|
  {
    if refs == [] then []
    else (if attach(refs[0].filePath).None? then [refs[0].filePath] else []) + Missing(refs[1..], attach)
  }

  /** The attachments of the references for which `attach` succeeds, in reference order, repeats included. */
  function Collected(refs: seq<Reference>, attach: string -> Option<Attachment>): (attachments: seq<Attachment>)
    ensures |attachments| <= |refs|
  {
    if refs == [] then []
    else (if attach(refs[0].filePath).Some? then [attach(refs[0].filePath).value] else []) + Collected(refs[1..], attach)
  }

  /** One turn of the attachment loop keeps the attachments on course. */
  lemma CollectedAdvance(refs: seq<Reference>, i: nat, attach: string -> Option<Attachment>, attachments: seq<Attachment>)
    requires i < |refs|
    requires attachments + Collected(refs[i..], attach) == Collected(refs, attach)
    ensures var a := attach(refs[i].filePath);
            (if a.Some? then attachments + [a.value] else attachments) + Collected(refs[i + 1..], attach)
              == Collected(refs, attach)
  {
    var rest := Collected(refs[i + 1..], attach);
    assert refs[i..][0] == refs[i] && refs[i..][1..] == refs[i + 1..];
    var a := attach(refs[i].filePath);
    if a.Some? {
      assert Collected(refs[i..], attach) == [a.value] + rest;
      assert (attachments + [a.value]) + rest == attachments + ([a.value] + rest);
    } else {
      assert Collected(refs[i..], attach) == rest;
    }
  }

  /** One turn of the attachment loop keeps the failing paths on course. */
  lemma MissingAdvance(refs: seq<Reference>, i: nat, attach: string -> Option<Attachment>, notFound: seq<string>)
    requires i < |refs|
    requires notFound + Missing(refs[i..], attach) == Missing(refs, attach)
    ensures (if attach(refs[i].filePath).None? then notFound + [refs[i].filePath] else notFound)
              + Missing(refs[i + 1..], attach) == Missing(refs, attach)
  {
    var rest := Missing(refs[i + 1..], attach);
    assert refs[i..][0] == refs[i] && refs[i..][1..] == refs[i + 1..];
    if attach(refs[i].filePath).None? {
      assert Missing(refs[i..], attach) == [refs[i].filePath] + rest;
      assert (notFound + [refs[i].filePath]) + rest == notFound + ([refs[i].filePath] + rest);
    } else {
      assert Missing(refs[i..], attach) == rest;
    }
  }

  /** Nothing is missing exactly when every reference can be attached. */
  lemma {:induction false} MissingEmptyIff(refs: seq<Reference>, attach: string -> Option<Attachment>)
    ensures Missing(refs, attach) == [] <==> forall k :: 0 <= k < |refs| ==> attach(refs[k].filePath).Some?
  {
    if refs != [] {
      MissingEmptyIff(refs[1..], attach);
      if Missing(refs, attach) == [] {
        assert forall k :: 1 <= k < |refs| ==> refs[k] == refs[1..][k - 1];
      }
    }
  }

  /** When nothing is missing, the attachments are one per reference, each that reference's. */
  lemma {:induction false} CollectedAll(refs: seq<Reference>, attach: string -> Option<Attachment>)
    requires Missing(refs, attach) == []
    ensures |Collected(refs, attach)| == |refs|
    ensures forall k :: 0 <= k < |refs| ==> Some(Collected(refs, attach)[k]) == attach(refs[k].filePath)
  {
    if refs != [] {
      CollectedAll(refs[1..], attach);
      var rest := Collected(refs[1..], attach);
      forall k | 1 <= k < |refs| ensures Some(Collected(refs, attach)[k]) == attach(refs[k].filePath) {
        assert refs[k] == refs[1..][k - 1];
        assert Collected(refs, attach)[k] == rest[k - 1];
      }
    }
  }

  /** The text of the `FileNotFoundError`: the failing paths after a fixed prefix, comma separated. */
  function NotFoundMessage(paths: seq<string>): (m: string)
    ensures |m| >= 19 && m[..19] == "File(s) not found: "
    ensures |paths| == 1 ==> m == "File(s) not found: " + paths[0]
    ensures |paths| >= 2 ==> m == "File(s) not found: " + paths[0] + ", " + Join(paths[1..], ", ")
  {
    "File(s) not found: " + Join(paths, ", ")
  }

  datatype Processed = Processed(prompt: string, attachments: seq<Attachment>)

  /** The processed prompt, or the `FileNotFoundError` with the failing paths and its text. */
  datatype Outcome = Done(result: Processed) | NotFound(paths: seq<string>, message: string)

  /**
   * The loop of `process_prompt_with_files`, with the per-reference step as a parameter:
   * the attachments of the references that succeed and the paths of those that fail,
   * each in reference order and repeats included.
   */
  method CollectAttachments(refs: seq<Reference>, attach: string -> Option<Attachment>)
    returns (attachments: seq<Attachment>, notFound: seq<string>)
    ensures attachments == Collected(refs, attach)
    ensures notFound == Missing(refs, attach)
  {
    attachments, notFound := [], [];
    var i := 0;
    while i < |refs|
      invariant 0 <= i <= |refs|
      invariant attachments + Collected(refs[i..], attach) == Collected(refs, attach)
      invariant notFound + Missing(refs[i..], attach) == Missing(refs, attach)
    {
      var attachment := attach(refs[i].filePath);
      CollectedAdvance(refs, i, attach, attachments);
      MissingAdvance(refs, i, attach, notFound);
      if attachment.Some? {
        attachments := attachments + [attachment.value];
      } else {
        notFound := notFound + [refs[i].filePath];
      }
      i := i + 1;
    }
    assert refs[i..] == [];
  }

  /**
   * `process_prompt_with_files`: the prompt comes back unchanged, never rewritten, with
   * one attachment per reference; if any reference fails, the error lists every failing
   * path in reference order instead.
   */
  method ProcessPromptWithFiles(prompt: string, fs: FileSystem) returns (r: Outcome)
    ensures var refs := References(prompt);
            var missing := Missing(refs, AttachIn(fs));
            if missing != [] then r == NotFound(missing, NotFoundMessage(missing))
            else && r.Done?
                 && r.result.prompt == prompt
                 && |r.result.attachments| == |refs|
                 && forall k :: 0 <= k < |refs| ==> Some(r.result.attachments[k]) == Attach(refs[k].filePath, fs)
    ensures References(prompt) == [] ==> r == Done(Processed(prompt, []))
  {
    var refs := FindFileReferences(prompt);
    if refs == [] {
      return Done(Processed(prompt, []));
    }
    var attachments, notFound := CollectAttachments(refs, AttachIn(fs));
    if notFound != [] {
      return NotFound(notFound, NotFoundMessage(notFound));
    }
    CollectedAll(refs, AttachIn(fs));
    r := Done(Processed(prompt, attachments));
  }
}
