/** The value-level rules behind the lobby controller: the start-up argument
    scan, the decimal lobby handle, the slot wrap-around, repeated
    `Dictionary.Add`, the per-member status map, the lobby search result and
    the packet fan-out. The controller's loops are proved against these. */
module LobbyRules {
  import opened Types
  import opened LobbyInfoModel
  import opened Steamworks

  // ---------------------------------------------------------------------
  // Start-up argument: `+connect_lobby <handle>`

  const ConnectFlag: string := "+connect_lobby"

  /** The argument after the LAST `+connect_lobby` that has an argument
      after it, or "" when there is none. */
  function ConnectArg(args: seq<string>): (r: string)
    decreases |args|
  {
    if |args| < 2 then ""
    else if args[|args| - 2] == ConnectFlag then args[|args| - 1]
    else ConnectArg(args[..|args| - 1])
  }

  /** The flag at `i`, followed by an argument and by no later flag that has
      one, decides the handle. */
  lemma {:induction false} ConnectArgIsLastFlag(args: seq<string>, i: nat)
    requires i + 1 < |args| && args[i] == ConnectFlag
    requires forall j :: i < j < |args| - 1 ==> args[j] != ConnectFlag
    ensures ConnectArg(args) == args[i + 1]
  {
    if i + 2 < |args| {
      var p := args[..|args| - 1];
      assert args[|args| - 2] == p[|args| - 2] != ConnectFlag;
      assert forall j :: i < j < |p| - 1 ==> p[j] == args[j];
      ConnectArgIsLastFlag(p, i);
    }
  }

  /** Without a flag that has an argument after it, the handle is "". */
  lemma {:induction false} ConnectArgWithoutFlag(args: seq<string>)
    requires forall j :: 0 <= j < |args| - 1 ==> args[j] != ConnectFlag
    ensures ConnectArg(args) == ""
  {
    if |args| >= 2 {
      var p := args[..|args| - 1];
      assert forall j :: 0 <= j < |p| - 1 ==> p[j] == args[j];
      ConnectArgWithoutFlag(p);
    }
  }

  /** The loop of `Init` over the command line. */
  method ScanConnectArg(args: seq<string>) returns (input: string)
    ensures input == ConnectArg(args)
  {
    input := "";
    var i := 0;
    while i < |args|
      invariant 0 <= i <= |args|
      invariant input == ConnectArg(args[..if i + 1 <= |args| then i + 1 else |args|])
    {
      if args[i] == ConnectFlag && |args| > i + 1 {
        input := args[i + 1];
      }
      i := i + 1;
      if i + 1 <= |args| {
        var p := args[..i + 1];
        assert p[..|p| - 1] == args[..i];
      }
    }
    assert args[..|args|] == args;
  }

  // ---------------------------------------------------------------------
  // `Convert.ToUInt64` on the handle

  predicate IsDigit(c: char) {
    '0' <= c <= '9'
  }

  predicate AllDigits(s: string) {
    forall i :: 0 <= i < |s| ==> IsDigit(s[i])
  }

  /** The number a string of decimal digits denotes. */
  function DigitsValue(s: string): (n: nat)
    requires AllDigits(s)
    decreases |s|
  {
    if s == [] then 0
    else DigitsValue(s[..|s| - 1]) * 10 + (s[|s| - 1] as int - '0' as int)
  }

  /** A decimal handle: one or more digits denoting a number below 2^64.
      Anything else makes the conversion throw, which is `None` here. */
  function ParseUInt64(s: string): (r: Option<u64>)
    ensures r.Some? ==> s != [] && AllDigits(s)
    ensures r.Some? ==> r.value as int == DigitsValue(s)
    ensures s != [] && AllDigits(s) && DigitsValue(s) < 0x1_0000_0000_0000_0000 ==> r.Some?
  {
    if s != [] && AllDigits(s) && DigitsValue(s) < 0x1_0000_0000_0000_0000
    then Some(DigitsValue(s) as u64)
    else None
  }

  /** The decimal spelling of a number (`ulong.ToString()`). */
  function FormatDecimal(n: nat): (s: string)
    decreases n
  {
    if n < 10 then [('0' as int + n) as char]
    else FormatDecimal(n / 10) + [('0' as int + n % 10) as char]
  }

  lemma {:induction false} FormatDecimalDigits(n: nat)
    ensures FormatDecimal(n) != [] && AllDigits(FormatDecimal(n))
    ensures DigitsValue(FormatDecimal(n)) == n
    decreases n
  {
    var s := FormatDecimal(n);
    if n >= 10 {
      FormatDecimalDigits(n / 10);
      assert s[..|s| - 1] == FormatDecimal(n / 10);
    }
  }

  /** Every handle Steam can print is read back as itself. */
  lemma ParseFormatRoundTrip(id: u64)
    ensures ParseUInt64(FormatDecimal(id as nat)) == Some(id)
  {
    FormatDecimalDigits(id as nat);
  }

  /** A character that is not a decimal digit makes the conversion fail. */
  lemma ParseRejectsNonDigit(s: string, i: nat)
    requires i < |s| && !IsDigit(s[i])
    ensures ParseUInt64(s) == None
  {
  }

  // ---------------------------------------------------------------------
  // `IncreaseSlots`

  /** `TotalSlots += 1` in C# `int` arithmetic, then back to 2 when the sum
      exceeds `MaxSlots`. */
  function NextTotalSlots(total: i32, max: i32): (r: i32)
    ensures total as int < MaxI32 && total as int + 1 <= max as int ==> r as int == total as int + 1
    ensures total as int < MaxI32 && total as int + 1 > max as int ==> r == 2
    ensures total as int == MaxI32 ==> r as int == MinI32
  {
    var t := AddWrap(total, 1);
    if t > max then 2 else t
  }

  /** The slot count stays between 2 and `MaxSlots` (when `MaxSlots` is
      below `int.MaxValue`, so that the addition cannot overflow). */
  lemma NextTotalSlotsInRange(total: i32, max: i32)
    requires 2 <= total <= max
    requires max as int < MaxI32
    ensures 2 <= NextTotalSlots(total, max) <= max
  {
  }

  /** The slot count after `k` calls of `IncreaseSlots`. */
  function SlotsAfter(total: i32, max: i32, k: nat): (r: i32)
    decreases k
  {
    if k == 0 then total else NextTotalSlots(SlotsAfter(total, max, k - 1), max)
  }

  /** From 2, each call adds one slot until `MaxSlots` is reached. */
  lemma {:induction false} SlotsClimb(max: i32, k: nat)
    requires 2 <= max && k <= max as int - 2
    ensures SlotsAfter(2, max, k) as int == 2 + k
    decreases k
  {
    if k > 0 {
      SlotsClimb(max, k - 1);
    }
  }

  /** The call after `MaxSlots` is reached wraps back to 2: the count cycles
      with period `MaxSlots - 1` (unless `MaxSlots` is `int.MaxValue`, where
      the addition overflows instead). */
  lemma SlotsCycle(max: i32)
    requires 2 <= max && max as int < MaxI32
    ensures SlotsAfter(2, max, max as int - 1) == 2
  {
    SlotsClimb(max, max as int - 2);
  }

  /** The creation scenario: five slots at most, counts 2, 3, 4, 5, 2. */
  lemma SlotsScenarioFive()
    ensures SlotsAfter(2, 5, 1) == 3 && SlotsAfter(2, 5, 2) == 4
    ensures SlotsAfter(2, 5, 3) == 5 && SlotsAfter(2, 5, 4) == 2
  {
    SlotsClimb(5, 3);
  }

  // ---------------------------------------------------------------------
  // Repeated `Dictionary.Add`

  /** No two pairs share a key, and no pair's key is already present. */
  ghost predicate FreshKeys<K, V>(pairs: seq<(K, V)>, acc: map<K, V>) {
    && (forall i, j :: 0 <= i < j < |pairs| ==> pairs[i].0 != pairs[j].0)
    && (forall i :: 0 <= i < |pairs| ==> pairs[i].0 !in acc)
  }

  /** `Add` each pair in order; the first key already present throws. */
  function AddEach<K, V>(pairs: seq<(K, V)>, acc: map<K, V>): (r: Result<map<K, V>>)
    decreases |pairs|
  {
    if pairs == [] then Ok(acc)
    else if pairs[0].0 in acc then Err(DuplicateKey)
    else AddEach(pairs[1..], acc[pairs[0].0 := pairs[0].1])
  }

  /** The keys of a list of pairs. */
  ghost function KeySet<K, V>(pairs: seq<(K, V)>): (keys: set<K>) {
    set i | 0 <= i < |pairs| :: pairs[i].0
  }

  /** The adds succeed exactly when all keys are fresh, and then the map
      holds the old entries and every pair. */
  lemma {:induction false} AddEachSpec<K, V>(pairs: seq<(K, V)>, acc: map<K, V>)
    ensures AddEach(pairs, acc).Ok? <==> FreshKeys(pairs, acc)
    ensures AddEach(pairs, acc).Ok? ==>
      && AddEach(pairs, acc).value.Keys == acc.Keys + KeySet(pairs)
      && (forall k :: k in acc ==> AddEach(pairs, acc).value[k] == acc[k])
      && (forall i :: 0 <= i < |pairs| ==> AddEach(pairs, acc).value[pairs[i].0] == pairs[i].1)
    decreases |pairs|
  {
    if pairs != [] {
      var k, v := pairs[0].0, pairs[0].1;
      var rest := pairs[1..];
      var acc' := acc[k := v];
      AddEachSpec(rest, acc');
      assert forall i :: 0 <= i < |rest| ==> rest[i] == pairs[i + 1];
      if k !in acc {
        if FreshKeys(pairs, acc) {
          assert FreshKeys(rest, acc');
          var r := AddEach(pairs, acc).value;
          assert KeySet(pairs) == {k} + KeySet(rest) by {
            forall x | x in KeySet(pairs) ensures x in {k} + KeySet(rest) {
              var i :| 0 <= i < |pairs| && pairs[i].0 == x;
              if i > 0 { assert rest[i - 1].0 == x; }
            }
            forall x | x in KeySet(rest) ensures x in KeySet(pairs) {
              var i :| 0 <= i < |rest| && rest[i].0 == x;
              assert pairs[i + 1].0 == x;
            }
          }
          forall i | 0 <= i < |pairs| ensures r[pairs[i].0] == pairs[i].1 {
            if i > 0 { assert pairs[i] == rest[i - 1]; }
          }
        } else {
          assert !FreshKeys(rest, acc') by {
            if FreshKeys(rest, acc') {
              assert FreshKeys(pairs, acc) by {
                forall i | 0 <= i < |pairs| ensures pairs[i].0 !in acc {
                  if i > 0 { assert pairs[i] == rest[i - 1]; }
                }
                forall i, j | 0 <= i < j < |pairs| ensures pairs[i].0 != pairs[j].0 {
                  assert pairs[j] == rest[j - 1];
                  if i > 0 { assert pairs[i] == rest[i - 1]; }
                }
              }
            }
          }
        }
      }
    }
  }

  // ---------------------------------------------------------------------
  // `getAllPlayerStatusesInLobby`, `GetMembersInLobby`, `IsMemberInSteamLobby`

  /** A member is ready only when the map holds `true` for it; a member the
      map does not mention is not ready. */
  function IsReady(ready: map<u64, bool>, member: u64): (r: bool) {
    member in ready && ready[member]
  }

  /** One `status.Add(name, ready)` per enumerated member, in order. */
  function StatusEntries(steam: SteamTransport, ms: seq<u64>, ready: map<u64, bool>): (e: seq<(string, bool)>)
    ensures |e| == |ms|
  {
    seq(|ms|, i requires 0 <= i < |ms| => (steam.PersonaName(ms[i]), IsReady(ready, ms[i])))
  }

  /** The persona-name map of a lobby, with each member's readiness. */
  function PlayerStatuses(steam: SteamTransport, lobby: u64, ready: map<u64, bool>): (r: Result<map<string, bool>>) {
    AddEach(StatusEntries(steam, steam.Members(lobby), ready), map[])
  }

  /** The members' persona names are pairwise different. */
  ghost predicate DistinctNames(steam: SteamTransport, ms: seq<u64>) {
    forall i, j :: 0 <= i < j < |ms| ==> steam.PersonaName(ms[i]) != steam.PersonaName(ms[j])
  }

  /** The persona names of a lobby's members. */
  ghost function NamesOf(steam: SteamTransport, ms: seq<u64>): (names: set<string>) {
    set m | m in ms :: steam.PersonaName(m)
  }

  /** The status map exists exactly when no two members share a persona
      name; it then has one key per member, and a member reads as ready
      exactly when `ReadyState` holds `true` for it. */
  lemma PlayerStatusesReport(steam: SteamTransport, lobby: u64, ready: map<u64, bool>)
    ensures PlayerStatuses(steam, lobby, ready).Ok? <==> DistinctNames(steam, steam.Members(lobby))
    ensures PlayerStatuses(steam, lobby, ready).Ok? ==>
      && PlayerStatuses(steam, lobby, ready).value.Keys == NamesOf(steam, steam.Members(lobby))
      && forall m :: m in steam.Members(lobby) ==>
           PlayerStatuses(steam, lobby, ready).value[steam.PersonaName(m)]
           == (m in ready && ready[m])
  {
    var ms := steam.Members(lobby);
    var e := StatusEntries(steam, ms, ready);
    AddEachSpec(e, map[]);
    assert forall i :: 0 <= i < |ms| ==> e[i].0 == steam.PersonaName(ms[i]);
    assert FreshKeys(e, map[]) <==> DistinctNames(steam, ms);
    if PlayerStatuses(steam, lobby, ready).Ok? {
      var st := PlayerStatuses(steam, lobby, ready).value;
      assert KeySet(e) == NamesOf(steam, ms) by {
        forall x | x in NamesOf(steam, ms) ensures x in KeySet(e) {
          var m :| m in ms && steam.PersonaName(m) == x;
          var i :| 0 <= i < |ms| && ms[i] == m;
          assert e[i].0 == x;
        }
      }
      forall m | m in ms ensures st[steam.PersonaName(m)] == (m in ready && ready[m]) {
        var i :| 0 <= i < |ms| && ms[i] == m;
        assert e[i] == (steam.PersonaName(m), IsReady(ready, m));
      }
    }
  }

  /** One `members.Add(member, name)` per enumerated member, in order. */
  function MemberEntries(steam: SteamTransport, ms: seq<u64>): (e: seq<(u64, string)>)
    ensures |e| == |ms|
  {
    seq(|ms|, i requires 0 <= i < |ms| => (ms[i], steam.PersonaName(ms[i])))
  }

  /** No member is enumerated twice. */
  ghost predicate NoDuplicates(ms: seq<u64>) {
    forall i, j :: 0 <= i < j < |ms| ==> ms[i] != ms[j]
  }

  /** The member map of a lobby: empty without Steam, otherwise one entry
      per enumerated member. */
  function MembersInLobby(steam: SteamTransport, lobby: u64): (r: Result<map<u64, string>>) {
    if !steam.initialized then Ok(map[])
    else AddEach(MemberEntries(steam, steam.Members(lobby)), map[])
  }

  /** With Steam, the member map exists exactly when no member is listed
      twice, and then it maps every member, and only members, to its
      persona name. */
  lemma MembersInLobbyReport(steam: SteamTransport, lobby: u64)
    ensures !steam.initialized ==> MembersInLobby(steam, lobby) == Ok(map[])
    ensures steam.initialized ==>
      (MembersInLobby(steam, lobby).Ok? <==> NoDuplicates(steam.Members(lobby)))
    ensures MembersInLobby(steam, lobby).Ok? && steam.initialized ==>
      && MembersInLobby(steam, lobby).value.Keys == (set m | m in steam.Members(lobby))
      && forall m :: m in steam.Members(lobby) ==>
           MembersInLobby(steam, lobby).value[m] == steam.PersonaName(m)
  {
    var ms := steam.Members(lobby);
    var e := MemberEntries(steam, ms);
    AddEachSpec(e, map[]);
    assert forall i :: 0 <= i < |ms| ==> e[i].0 == ms[i];
    assert FreshKeys(e, map[]) <==> NoDuplicates(ms);
    if steam.initialized && MembersInLobby(steam, lobby).Ok? {
      var mm := MembersInLobby(steam, lobby).value;
      assert KeySet(e) == set m | m in ms by {
        forall x | x in ms ensures x in KeySet(e) {
          var i :| 0 <= i < |ms| && ms[i] == x;
          assert e[i].0 == x;
        }
      }
      forall m | m in ms ensures mm[m] == steam.PersonaName(m) {
        var i :| 0 <= i < |ms| && ms[i] == m;
        assert e[i] == (m, steam.PersonaName(m));
      }
    }
  }

  // ---------------------------------------------------------------------
  // `OnLobbyMatchList` and `SetOtherLobbyData`

  /** The entry `SetOtherLobbyData` considers for a found lobby: its parsed
      snapshot with `UsedSlots` replaced by Steam's member count. */
  function OtherLobbyEntry(steam: SteamTransport, parse: string -> LobbyInfo, lobby: u64): (e: LobbyInfo)
    ensures e.UsedSlots == steam.MemberCount(lobby)
  {
    parse(steam.LobbyBlob(lobby)).(UsedSlots := steam.MemberCount(lobby))
  }

  /** A lobby is listed only when it has members and a host name. */
  predicate Listable(info: LobbyInfo) {
    info.UsedSlots > 0 && info.HostName != ""
  }

  /** Walk the found lobbies in order: skip our own, skip unlistable ones,
      add the rest; a lobby found twice throws, which ends the walk. */
  function CollectLobbies(steam: SteamTransport, parse: string -> LobbyInfo, own: u64,
                          ids: seq<u64>, acc: map<u64, LobbyInfo>): (r: map<u64, LobbyInfo>)
    decreases |ids|
  {
    if ids == [] then acc
    else if ids[0] == own || !Listable(OtherLobbyEntry(steam, parse, ids[0]))
    then CollectLobbies(steam, parse, own, ids[1..], acc)
    else if ids[0] in acc then acc
    else CollectLobbies(steam, parse, own, ids[1..], acc[ids[0] := OtherLobbyEntry(steam, parse, ids[0])])
  }

  /** Everything collected is a found lobby other than our own, listable,
      and stored as Steam reports it. */
  lemma {:induction false} CollectLobbiesSound(steam: SteamTransport, parse: string -> LobbyInfo, own: u64,
                                               ids: seq<u64>, acc: map<u64, LobbyInfo>, id: u64)
    requires id in CollectLobbies(steam, parse, own, ids, acc) && id !in acc
    ensures id in ids && id != own
    ensures CollectLobbies(steam, parse, own, ids, acc)[id] == OtherLobbyEntry(steam, parse, id)
    ensures Listable(CollectLobbies(steam, parse, own, ids, acc)[id])
    decreases |ids|
  {
    var x := ids[0];
    if x == own || !Listable(OtherLobbyEntry(steam, parse, x)) {
      CollectLobbiesSound(steam, parse, own, ids[1..], acc, id);
    } else if x !in acc {
      if id != x {
        CollectLobbiesSound(steam, parse, own, ids[1..], acc[x := OtherLobbyEntry(steam, parse, x)], id);
      } else {
        CollectKeeps(steam, parse, own, ids[1..], acc[x := OtherLobbyEntry(steam, parse, x)], x);
      }
    }
  }

  /** Entries already collected stay as they are. */
  lemma {:induction false} CollectKeeps(steam: SteamTransport, parse: string -> LobbyInfo, own: u64,
                                        ids: seq<u64>, acc: map<u64, LobbyInfo>, id: u64)
    requires id in acc
    ensures id in CollectLobbies(steam, parse, own, ids, acc)
    ensures CollectLobbies(steam, parse, own, ids, acc)[id] == acc[id]
    decreases |ids|
  {
    if ids != [] {
      var x := ids[0];
      if x == own || !Listable(OtherLobbyEntry(steam, parse, x)) {
        CollectKeeps(steam, parse, own, ids[1..], acc, id);
      } else if x !in acc {
        CollectKeeps(steam, parse, own, ids[1..], acc[x := OtherLobbyEntry(steam, parse, x)], id);
      }
    }
  }

  /** When Steam reports each lobby once, every listable lobby other than
      our own is collected. */
  lemma {:induction false} CollectLobbiesComplete(steam: SteamTransport, parse: string -> LobbyInfo, own: u64,
                                                  ids: seq<u64>, acc: map<u64, LobbyInfo>, id: u64)
    requires NoDuplicates(ids)
    requires forall i :: 0 <= i < |ids| ==> ids[i] !in acc
    requires id in ids && id != own && Listable(OtherLobbyEntry(steam, parse, id))
    ensures id in CollectLobbies(steam, parse, own, ids, acc)
    decreases |ids|
  {
    var x := ids[0];
    var rest := ids[1..];
    assert NoDuplicates(rest) by {
      forall i, j | 0 <= i < j < |rest| ensures rest[i] != rest[j] {
        assert rest[i] == ids[i + 1] && rest[j] == ids[j + 1];
      }
    }
    if x == id {
      CollectKeeps(steam, parse, own, rest, acc[x := OtherLobbyEntry(steam, parse, x)], x);
    } else {
      assert id in rest;
      if x == own || !Listable(OtherLobbyEntry(steam, parse, x)) {
        assert forall i :: 0 <= i < |rest| ==> rest[i] == ids[i + 1];
        CollectLobbiesComplete(steam, parse, own, rest, acc, id);
      } else {
        var acc' := acc[x := OtherLobbyEntry(steam, parse, x)];
        forall i | 0 <= i < |rest| ensures rest[i] !in acc' {
          assert rest[i] == ids[i + 1];
          assert ids[0] != ids[i + 1];
        }
        CollectLobbiesComplete(steam, parse, own, rest, acc', id);
      }
    }
  }

  /** The lobby list a search produces, starting from an empty list. */
  function FoundLobbies(steam: SteamTransport, parse: string -> LobbyInfo, own: u64): (r: map<u64, LobbyInfo>) {
    CollectLobbies(steam, parse, own, steam.matchList, map[])
  }

  /** The lobby list never holds our own lobby; it holds listable lobbies
      from the search as Steam reports them; and when the search reports each
      lobby once, it holds exactly those. */
  lemma FoundLobbiesSpec(steam: SteamTransport, parse: string -> LobbyInfo, own: u64)
    ensures own !in FoundLobbies(steam, parse, own)
    ensures forall id :: id in FoundLobbies(steam, parse, own) ==>
      && id in steam.matchList
      && FoundLobbies(steam, parse, own)[id] == OtherLobbyEntry(steam, parse, id)
      && Listable(FoundLobbies(steam, parse, own)[id])
    ensures NoDuplicates(steam.matchList) ==>
      forall id :: id in FoundLobbies(steam, parse, own) <==>
        (id in steam.matchList && id != own && Listable(OtherLobbyEntry(steam, parse, id)))
  {
    var found := FoundLobbies(steam, parse, own);
    forall id | id in found
      ensures id in steam.matchList && id != own
      ensures found[id] == OtherLobbyEntry(steam, parse, id) && Listable(found[id])
    {
      CollectLobbiesSound(steam, parse, own, steam.matchList, map[], id);
    }
    if NoDuplicates(steam.matchList) {
      forall id | id in steam.matchList && id != own && Listable(OtherLobbyEntry(steam, parse, id))
        ensures id in found
      {
        CollectLobbiesComplete(steam, parse, own, steam.matchList, map[], id);
      }
    }
  }

  // ---------------------------------------------------------------------
  // `SendToAllInLobby`

  /** The members a packet goes to: every enumerated member except us, in
      enumeration order. */
  function Recipients(ms: seq<u64>, self: u64): (r: seq<u64>)
    decreases |ms|
  {
    if ms == [] then []
    else Recipients(ms[..|ms| - 1], self)
         + (if ms[|ms| - 1] != self then [ms[|ms| - 1]] else [])
  }

  /** The packets `SendToAllInLobby` sends. */
  function FanOut(ms: seq<u64>, self: u64, bytes: seq<byte>): (calls: seq<SteamCall>)
    ensures |calls| == |Recipients(ms, self)|
  {
    seq(|Recipients(ms, self)|, i requires 0 <= i < |Recipients(ms, self)| =>
      SendP2PPacket(Recipients(ms, self)[i], bytes))
  }

  function Count(ms: seq<u64>, x: u64): (n: nat)
    decreases |ms|
  {
    if ms == [] then 0 else Count(ms[..|ms| - 1], x) + (if ms[|ms| - 1] == x then 1 else 0)
  }

  /** Splitting the member list splits the recipients: order is kept. */
  lemma {:induction false} RecipientsAppend(a: seq<u64>, b: seq<u64>, self: u64)
    ensures Recipients(a + b, self) == Recipients(a, self) + Recipients(b, self)
    decreases |b|
  {
    if b != [] {
      var b' := b[..|b| - 1];
      assert (a + b)[..|a + b| - 1] == a + b';
      assert (a + b)[|a + b| - 1] == b[|b| - 1];
      RecipientsAppend(a, b', self);
      var tail := if b[|b| - 1] != self then [b[|b| - 1]] else [];
      assert Recipients(b, self) == Recipients(b', self) + tail;
      assert Recipients(a + b, self) == Recipients(a + b', self) + tail;
    } else {
      assert a + b == a;
    }
  }

  /** We never send to ourselves, and every other member gets the packet as
      many times as it is enumerated. */
  lemma {:induction false} RecipientsSpec(ms: seq<u64>, self: u64, x: u64)
    ensures self !in Recipients(ms, self)
    ensures x != self ==> Count(Recipients(ms, self), x) == Count(ms, x)
    decreases |ms|
  {
    if ms != [] {
      var p := ms[..|ms| - 1];
      var last := ms[|ms| - 1];
      RecipientsSpec(p, self, x);
      var tail := if last != self then [last] else [];
      var r := Recipients(p, self) + tail;
      if tail != [] {
        assert r[..|r| - 1] == Recipients(p, self);
      } else {
        assert r == Recipients(p, self);
      }
    }
  }

  /** A member other than us is sent to exactly when it is enumerated. */
  lemma RecipientsMembership(ms: seq<u64>, self: u64, x: u64)
    ensures x in Recipients(ms, self) <==> x in ms && x != self
  {
    RecipientsSpec(ms, self, x);
    CountPositive(Recipients(ms, self), x);
    CountPositive(ms, x);
  }

  lemma {:induction false} CountPositive(ms: seq<u64>, x: u64)
    ensures x in ms <==> Count(ms, x) > 0
    decreases |ms|
  {
    if ms != [] {
      var p := ms[..|ms| - 1];
      CountPositive(p, x);
      assert ms == p + [ms[|ms| - 1]];
    }
  }
}
