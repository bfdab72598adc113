/**
 * The conversation commands (src/cli/conversations.py): the numbered listing and the
 * selection made from it, loading the chosen conversation, `new`, `delete` and `link`.
 */
module Conversations {
  import opened Wrappers
  import opened Text
  import opened Store

  /** One element of a `get_conversations` response; absent keys are `None`. */
  datatype Convo = Convo(name: Option<string>, uuid: Option<string>)

  function UuidOf(c: Convo): string { c.uuid.GetOr("") }

  /** A printed listing line: marker, number, star, name and the first eight characters of the uuid. */
  datatype Entry = Entry(marked: bool, number: int, starred: bool, name: string, shortUuid: string)

  /** The line printed for `c` under `number`; the `-> ` marker is on exactly the active conversation. */
  function EntryFor(c: Convo, number: int, starred: bool, active: Option<string>): (e: Entry)
    ensures e.marked <==> active == Some(UuidOf(c))
    ensures e.number == number && e.starred == starred
    ensures e.shortUuid <= UuidOf(c) && |e.shortUuid| == if |UuidOf(c)| < 8 then |UuidOf(c)| else 8
    ensures e.name == c.name.GetOr("Untitled")
  {
    Entry(active == Some(UuidOf(c)), number, starred, c.name.GetOr("Untitled"), Take(UuidOf(c), 8))
  }

  /** The numbers 1..n. */
  function Range(n: nat): set<int>
  {
    if n == 0 then {} else Range(n - 1) + {n}
  }

  lemma {:induction false} RangeMembers(n: nat)
    ensures |Range(n)| == n
    ensures forall k :: k in Range(n) <==> 1 <= k <= n
  {
    if n > 0 {
      RangeMembers(n - 1);
    }
  }

  /** A map whose keys are exactly 1..n has n entries. */
  lemma KeysAreRange(m: map<int, string>, n: nat)
    requires forall k :: k in m <==> 1 <= k <= n
    ensures m.Keys == Range(n) && |m| == n
  {
    RangeMembers(n);
    forall k | k in Range(n) ensures k in m.Keys {
      assert 1 <= k <= n;
    }
    forall k | k in m.Keys ensures k in Range(n) {
      assert k in m;
    }
    assert m.Keys == Range(n);
    assert |m| == |m.Keys|;
  }

  /** The conversation listed under `number`: starred ones take 1..S, regular ones S+1..S+R, both in response order. */
  function Numbered(regular: seq<Convo>, starred: seq<Convo>, number: int): Convo
    requires 1 <= number <= |regular| + |starred|
  {
    if number <= |starred| then starred[number - 1] else regular[number - |starred| - 1]
  }

  /** The numbering as a map: every number 1..R+S to the uuid of the conversation listed under it. */
  function NumberMap(regular: seq<Convo>, starred: seq<Convo>): map<int, string>
  {
    map k | 1 <= k <= |regular| + |starred| :: UuidOf(Numbered(regular, starred, k))
  }

  /** The entry printed in position `j` (0-based) of the listing. */
  function ExpectedEntry(regular: seq<Convo>, starred: seq<Convo>, active: Option<string>, j: nat): Entry
    requires j < |regular| + |starred|
  {
    var number := |regular| + |starred| - j;
    EntryFor(Numbered(regular, starred, number), number, j >= |regular|, active)
  }

  /** The map holds exactly the numbers above `lo`, each with the uuid of the conversation listed under it. */
  ghost predicate MapAbove(convoMap: map<int, string>, regular: seq<Convo>, starred: seq<Convo>, lo: nat)
  {
    && lo <= |regular| + |starred|
    && (forall k :: k in convoMap <==> lo < k <= |regular| + |starred|)
    && (forall k :: k in convoMap ==> 1 <= k <= |regular| + |starred| && convoMap[k] == UuidOf(Numbered(regular, starred, k)))
  }

  /** The entries printed so far are the first ones of the listing. */
  ghost predicate EntriesSoFar(entries: seq<Entry>, regular: seq<Convo>, starred: seq<Convo>, active: Option<string>)
  {
    && |entries| <= |regular| + |starred|
    && forall j :: 0 <= j < |entries| ==> entries[j] == ExpectedEntry(regular, starred, active, j)
  }

  /** Printing conversation number `lo` next extends both the map and the listing. */
  lemma NumberNext(convoMap: map<int, string>, entries: seq<Entry>, regular: seq<Convo>, starred: seq<Convo>,
                   active: Option<string>, lo: nat, convo: Convo, isStarred: bool)
    requires MapAbove(convoMap, regular, starred, lo) && EntriesSoFar(entries, regular, starred, active)
    requires 1 <= lo && |entries| == |regular| + |starred| - lo
    requires Numbered(regular, starred, lo) == convo && isStarred == (|entries| >= |regular|)
    ensures MapAbove(convoMap[lo := UuidOf(convo)], regular, starred, lo - 1)
    ensures EntriesSoFar(entries + [EntryFor(convo, lo, isStarred, active)], regular, starred, active)
  {
    var e := entries + [EntryFor(convo, lo, isStarred, active)];
    assert e[|entries|] == ExpectedEntry(regular, starred, active, |entries|);
    assert forall j :: 0 <= j < |entries| ==> e[j] == entries[j];
  }

  /** Once every number down to 1 is in, the map is keyed by exactly 1..R+S. */
  lemma MapComplete(convoMap: map<int, string>, regular: seq<Convo>, starred: seq<Convo>)
    requires MapAbove(convoMap, regular, starred, 0)
    ensures forall k :: k in convoMap <==> 1 <= k <= |regular| + |starred|
    ensures convoMap.Keys == Range(|regular| + |starred|) && |convoMap| == |regular| + |starred|
    ensures forall k :: k in convoMap ==> convoMap[k] == UuidOf(Numbered(regular, starred, k))
  {
    KeysAreRange(convoMap, |regular| + |starred|);
  }

  /**
   * One `enumerate(reversed(group))` loop: the group's conversations from last to first,
   * numbered from `offset + |group|` down to `offset + 1`, each added to the map and printed.
   */
  method NumberGroup(group: seq<Convo>, offset: nat, isStarred: bool, active: Option<string>,
                     regular: seq<Convo>, starred: seq<Convo>, convoMap0: map<int, string>, entries0: seq<Entry>)
    returns (convoMap: map<int, string>, entries: seq<Entry>)
    requires if isStarred then group == starred && offset == 0 else group == regular && offset == |starred|
    requires MapAbove(convoMap0, regular, starred, offset + |group|)
    requires EntriesSoFar(entries0, regular, starred, active) && |entries0| == |regular| + |starred| - offset - |group|
    ensures MapAbove(convoMap, regular, starred, offset)
    ensures EntriesSoFar(entries, regular, starred, active) && |entries| == |regular| + |starred| - offset
  {
    convoMap, entries := convoMap0, entries0;
    var i := 0;
    while i < |group|
      invariant 0 <= i <= |group|
      invariant MapAbove(convoMap, regular, starred, offset + |group| - i)
      invariant EntriesSoFar(entries, regular, starred, active) && |entries| == |regular| + |starred| - offset - |group| + i
    {
      var convo := group[|group| - 1 - i];
      var index := offset + |group| - i;
      assert Numbered(regular, starred, index) == convo;
      NumberNext(convoMap, entries, regular, starred, active, index, convo, isStarred);
      entries := entries + [EntryFor(convo, index, isStarred, active)];
      convoMap := convoMap[index := UuidOf(convo)];
      i := i + 1;
    }
  }

  /**
   * The two `enumerate(reversed(...))` loops of `conversations`. The numbers form a
   * bijection onto 1..R+S: no entry overwrites another, and the printed total is the
   * number of selectable entries. Regular conversations are printed first, from the
   * highest number down, then the starred ones.
   */
  method NumberConversations(regular: seq<Convo>, starred: seq<Convo>, active: Option<string>)
    returns (convoMap: map<int, string>, entries: seq<Entry>, total: nat)
    ensures forall k :: k in convoMap <==> 1 <= k <= |regular| + |starred|
    ensures convoMap.Keys == Range(|regular| + |starred|)
    ensures forall k :: k in convoMap ==> convoMap[k] == UuidOf(Numbered(regular, starred, k))
    ensures convoMap == NumberMap(regular, starred)
    ensures total == |regular| + |starred| == |convoMap|
    ensures |entries| == |regular| + |starred|
    ensures forall j :: 0 <= j < |entries| ==> entries[j] == ExpectedEntry(regular, starred, active, j)
  {
    convoMap, entries := NumberGroup(regular, |starred|, false, active, regular, starred, map[], []);
    convoMap, entries := NumberGroup(starred, 0, true, active, regular, starred, convoMap, entries);
    MapComplete(convoMap, regular, starred);
    assert convoMap == NumberMap(regular, starred);
    total := |regular| + |starred|;
  }

  // ---------------------------------------------------------------------------
  // Selection

  predicate AllDigits(s: string)
  {
    forall i :: 0 <= i < |s| ==> '0' <= s[i] <= '9'
  }

  /** `int(s)` for a string of ASCII digits. */
  function DigitValue(s: string): nat
    requires AllDigits(s)
  {
    if s == [] then 0 else DigitValue(s[..|s| - 1]) * 10 + (s[|s| - 1] as int - '0' as int)
  }

  /** Leading zeros do not change the number: "007" selects 7. */
  lemma {:induction false} LeadingZeroIgnored(s: string)
    requires AllDigits(s)
    ensures AllDigits("0" + s) && DigitValue("0" + s) == DigitValue(s)
    decreases |s|
  {
    var t := "0" + s;
    if s != [] {
      assert t[..|t| - 1] == "0" + s[..|s| - 1];
      LeadingZeroIgnored(s[..|s| - 1]);
    }
  }

  datatype Selection = Skip | Invalid | Pick(number: nat, uuid: string)

  /**
   * The answer to the prompt: empty or non-numeric input skips silently; a number that
   * is a key picks that conversation; any other number is invalid.
   */
  function Select(input: string, convoMap: map<int, string>): (r: Selection)
    ensures r == Skip <==> input == "" || !AllDigits(input)
    ensures r == Invalid <==> input != "" && AllDigits(input) && DigitValue(input) !in convoMap
    ensures r.Pick? ==> AllDigits(input) && r.number == DigitValue(input) && r.number in convoMap && r.uuid == convoMap[r.number]
  {
    if input != "" && AllDigits(input) then
      var index := DigitValue(input);
      if index in convoMap then Pick(index, convoMap[index]) else Invalid
    else Skip
  }

  /** Over the numbering, exactly the numbers 1..R+S are acted on; "0" is always invalid. */
  lemma SelectionMatchesNumbering(input: string, convoMap: map<int, string>, n: nat)
    requires convoMap.Keys == Range(n)
    ensures Select(input, convoMap).Pick? <==> input != "" && AllDigits(input) && 1 <= DigitValue(input) <= n
    ensures Select("0", convoMap) == Invalid
  {
    RangeMembers(n);
    assert DigitValue("0") == 0 by {
      assert "0"[..0] == [];
    }
  }

  // ---------------------------------------------------------------------------
  // Switching, new, delete, link

  datatype SwitchOutcome = Skipped | InvalidNumber | LoadFailed | Switched(number: nat, write: Write)

  /**
   * Acting on the selection: load the chosen conversation and make it active, with its
   * last message (or the zero uuid) as parent and its settings cached.
   */
  function Switch(input: string, convoMap: map<int, string>, details: string -> Details): (r: SwitchOutcome)
    ensures r == Skipped <==> Select(input, convoMap) == Skip
    ensures r == InvalidNumber <==> Select(input, convoMap) == Invalid
    ensures r.Switched? || r.LoadFailed? <==> Select(input, convoMap).Pick?
    ensures r.Switched? <==> Select(input, convoMap).Pick? && details(Select(input, convoMap).uuid).status == 200
    ensures r.Switched? ==> var uuid := Select(input, convoMap).uuid;
                            r.number == DigitValue(input)
                            && r.write == Write(Some(uuid), Some(ParentAfterLoad(details(uuid).messages)), Some(details(uuid).settings))
  {
    match Select(input, convoMap)
    case Skip => Skipped
    case Invalid => InvalidNumber
    case Pick(number, uuid) =>
      var response := details(uuid);
      if response.status == 200 then
        Switched(number, Write(Some(uuid), Some(ParentAfterLoad(response.messages)), Some(response.settings)))
      else LoadFailed
  }

  /** A decoded `get_conversations` response. */
  datatype Listing = Listing(status: int, convos: seq<Convo>)

  datatype ListOutcome =
    | ListNoAccount
    | NoneFound
    | Listed(entries: seq<Entry>, total: nat, starredCount: nat, choice: SwitchOutcome)
    | ListAuthFailed
    | ListFailed

  /**
   * The `conversations` command: list both responses, numbered, then act on the answer
   * over that numbering. A switch goes to the conversation listed under the chosen number.
   */
  method ListConversations(hasAccount: bool, regular: Listing, starred: Listing, active: Option<string>,
                           input: string, details: string -> Details) returns (r: ListOutcome)
    ensures r.Listed? <==> hasAccount && regular.status == 200 && starred.status == 200 && (regular.convos != [] || starred.convos != [])
    ensures r == NoneFound <==> hasAccount && regular.status == 200 && starred.status == 200 && regular.convos == [] && starred.convos == []
    ensures r == ListNoAccount <==> !hasAccount
    ensures r == ListAuthFailed <==> hasAccount && !(regular.status == 200 && starred.status == 200) && regular.status in {401, 403}
    ensures r == ListFailed <==> hasAccount && !(regular.status == 200 && starred.status == 200) && regular.status !in {401, 403}
    ensures r.Listed? ==> var n := |regular.convos| + |starred.convos|;
                          && r.total == n && r.starredCount == |starred.convos| && |r.entries| == n
                          && (forall j :: 0 <= j < n ==> r.entries[j] == ExpectedEntry(regular.convos, starred.convos, active, j))
                          && r.choice == Switch(input, NumberMap(regular.convos, starred.convos), details)
                          && (r.choice == Skipped <==> input == "" || !AllDigits(input))
                          && (r.choice == InvalidNumber <==> input != "" && AllDigits(input) && !(1 <= DigitValue(input) <= n))
                          && (r.choice.Switched? || r.choice.LoadFailed? <==> input != "" && AllDigits(input) && 1 <= DigitValue(input) <= n)
                          && (r.choice.Switched? ==> 1 <= r.choice.number <= n && r.choice.write.conversation == Some(UuidOf(Numbered(regular.convos, starred.convos, r.choice.number))))
  {
    if !hasAccount {
      return ListNoAccount;
    }
    if regular.status == 200 && starred.status == 200 {
      if regular.convos == [] && starred.convos == [] {
        return NoneFound;
      }
      var convoMap, entries, total := NumberConversations(regular.convos, starred.convos, active);
      SelectionMatchesNumbering(input, convoMap, total);
      var choice := Switch(input, convoMap, details);
      r := Listed(entries, total, |starred.convos|, choice);
    } else if regular.status == 401 || regular.status == 403 {
      r := ListAuthFailed;
    } else {
      r := ListFailed;
    }
  }

  datatype NewOutcome = NewNoAccount | Created(write: Write) | CreateFailed(status: int)

  /**
   * The `new` command: on 200 or 201 the locally generated uuid becomes the active
   * conversation, with the zero-uuid parent and web search, artifacts and code
   * execution enabled.
   */
  function New(hasAccount: bool, freshUuid: string, status: int): (r: NewOutcome)
    ensures r.Created? <==> hasAccount && status in {200, 201}
    ensures r.Created? ==> r.write == Write(Some(freshUuid), Some(ZeroUuid), Some(AllEnabled))
  {
    if !hasAccount then NewNoAccount
    else if status == 201 || status == 200 then Created(Write(Some(freshUuid), Some(ZeroUuid), Some(AllEnabled)))
    else CreateFailed(status)
  }

  datatype DeleteOutcome =
    | DeleteNoAccount
    | NoTarget
    | Cancelled
    | Deleted(target: string, clear: Option<Write>)
    | DeleteFailed(status: int)

  /**
   * The `delete` command: the named conversation, or the active one when none is named.
   * The active conversation is cleared only after a 200 or 204 and only when it is the
   * one deleted.
   */
  function Delete(hasAccount: bool, named: Option<string>, active: Option<string>, confirmed: bool, status: int): (r: DeleteOutcome)
    ensures r.Deleted? <==> hasAccount && (Truthy(named) || Truthy(active)) && confirmed && status in {200, 204}
    ensures r.Deleted? ==> r.target == (if Truthy(named) then named.value else active.value)
    ensures r.Deleted? ==> (r.clear.Some? <==> active == Some(r.target))
    ensures r.Deleted? && r.clear.Some? ==> r.clear.value == Write(None, None, None)
    ensures r.Deleted? && !Truthy(named) ==> r.clear.Some?
  {
    if !hasAccount then DeleteNoAccount
    else
      var target := if Truthy(named) then named else active;
      if !Truthy(target) then NoTarget
      else if !confirmed then Cancelled
      else if status in {200, 204} then
        Deleted(target.value, if target == active then Some(Write(None, None, None)) else None)
      else DeleteFailed(status)
  }

  const ChatUrl := "https://claude.ai/chat/"

  /** The `link` command: the chat URL of the active conversation, or `???` after it when there is none. */
  function Link(active: Option<string>): (url: string)
    ensures |url| > |ChatUrl| && url[..|ChatUrl|] == ChatUrl
    ensures url[|ChatUrl|..] == if Truthy(active) then active.value else "???"
  {
    ChatUrl + (if Truthy(active) then active.value else "???")
  }

  /** Distinct active conversations give distinct links. */
  lemma LinkIdentifiesConversation(a: Option<string>, b: Option<string>)
    requires Truthy(a) && Truthy(b) && Link(a) == Link(b)
    ensures a == b
  {
    assert a.value == Link(a)[|ChatUrl|..];
  }
}
