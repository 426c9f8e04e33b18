/** The lobby controller (`SteamAPI`, a static class in the source): one live
    lobby snapshot, the per-peer ready map, the connection state and the list
    of other lobbies found by a search. Most changes to the snapshot are
    followed by a push guarded by host authority; `UpdateLobbyInfo` and
    `JoinLobby` change it without one. */
module SteamAPI {
  import opened Types
  import opened LobbyInfoModel
  import T = Steamworks
  import opened LobbyRules
  import Config

  datatype ConnectionState =
    UNDEFINED | CONNECTING | CANCELLED | CONNECTED | FAILED | DISCONNECTING | DISCONNECTED

  /** What `Init` did with the command line. */
  datatype InitOutcome =
    | NoLobbyArgument        // no `+connect_lobby <handle>`, or an empty handle
    | InvalidLobbyArgument   // `Convert.ToUInt64` throws on the handle
    | ZeroLobby              // the handle is 0: nothing to join
    | JoinAttempted          // `JoinLobby` was called with the handle

  /** What `SetOtherLobbyData` did with a found lobby. */
  datatype ListOutcome =
    | Added
    | Skipped                // no members or no host name
    | AlreadyListed          // `LobbyData.Add` throws: the lobby is listed already

  /** The installed song `WaitingMenu.GetInstalledSong()` reports. */
  datatype Song = Song(songName: string, songAuthorName: string)

  const WaitingInMenu: string := "Waiting In Menu"

  /** `IsHost()`: we are in no lobby, or Steam names us as the lobby owner. */
  predicate IsHostOf(steam: T.SteamTransport, info: LobbyInfo) {
    info.LobbyID == 0 || steam.Owner(info.LobbyID) == steam.userId
  }

  /** The calls `SendLobbyInfo(true)` makes for a snapshot: the snapshot is
      written under its own lobby id when we are host, and nothing is
      written otherwise. */
  function HostPush(steam: T.SteamTransport, info: LobbyInfo): (calls: seq<T.SteamCall>) {
    if IsHostOf(steam, info) then [T.SetLobbyData(info.LobbyID, info)] else []
  }

  /** The snapshot after `Disconnect`. */
  function Disconnected(info: LobbyInfo): (r: LobbyInfo) {
    info.(HostName := "", LobbyID := 0)
  }

  /** The calls `Disconnect` makes, from the snapshot it starts with: the
      push of the snapshot without host name (still under the old lobby id),
      then `LeaveLobby` on the id it has just reset, then avatar clean-up. */
  function DisconnectCalls(steam: T.SteamTransport, info: LobbyInfo): (calls: seq<T.SteamCall>) {
    HostPush(steam, info.(HostName := "")) + [T.LeaveLobby(0), T.DestroyAvatars]
  }

  /** As host of lobby `L`, `Disconnect` first writes the snapshot, host name
      cleared, to `L` itself, and then leaves lobby 0: lobby `L` is never
      left. Not being host, it writes nothing. */
  lemma DisconnectOrder(steam: T.SteamTransport, info: LobbyInfo)
    ensures IsHostOf(steam, info) ==>
      DisconnectCalls(steam, info)
      == [T.SetLobbyData(info.LobbyID, info.(HostName := "")), T.LeaveLobby(0), T.DestroyAvatars]
    ensures !IsHostOf(steam, info) ==> DisconnectCalls(steam, info) == [T.LeaveLobby(0), T.DestroyAvatars]
    ensures info.LobbyID != 0 ==> T.LeaveLobby(info.LobbyID) !in DisconnectCalls(steam, info)
  {
  }

  class SteamAPI {
    const steam: T.SteamTransport
    /** `_lobbyInfo`. */
    var lobbyInfo: LobbyInfo
    /** `ReadyState`. */
    var readyState: map<u64, bool>
    /** `Connection`. */
    var connection: ConnectionState
    /** `LobbyData`. */
    var lobbyData: map<u64, LobbyInfo>
    /** `PlayerController.Instance._playerInfo.Downloading`: our own player's
        download flag, which the controller sets and clears. */
    var downloading: bool

    /** The static initialisers; `blank` is what `new LobbyInfo()` yields. */
    constructor (steam: T.SteamTransport, blank: LobbyInfo)
      ensures this.steam == steam && lobbyInfo == blank
      ensures readyState == map[] && connection == UNDEFINED && lobbyData == map[] && !downloading
    {
      this.steam := steam;
      lobbyInfo := blank;
      readyState := map[];
      connection := UNDEFINED;
      lobbyData := map[];
      downloading := false;
    }

    predicate IsHost()
      reads this
    {
      IsHostOf(steam, lobbyInfo)
    }

    /** Connected through Steam to a lobby. */
    predicate IsLobbyConnected()
      reads this
    {
      steam.initialized && connection == CONNECTED && lobbyInfo.LobbyID > 0
    }

    /** Start-up: a blank snapshot, then a join of the lobby named on the
        command line, if any. */
    method Init(args: seq<string>, blank: LobbyInfo) returns (outcome: InitOutcome)
      modifies this, steam
      ensures unchanged(this`readyState, this`lobbyData, this`downloading)
      ensures outcome == NoLobbyArgument <==> ConnectArg(args) == ""
      ensures outcome == InvalidLobbyArgument <==>
        ConnectArg(args) != "" && ParseUInt64(ConnectArg(args)).None?
      ensures outcome == ZeroLobby <==> ParseUInt64(ConnectArg(args)) == Some(0)
      ensures outcome != JoinAttempted ==>
        lobbyInfo == blank && connection == old(connection) && steam.log == old(steam.log)
      ensures outcome == JoinAttempted ==>
        var target := ParseUInt64(ConnectArg(args)).value;
        && target > 0
        && (!steam.initialized ==>
              connection == FAILED && lobbyInfo == blank && steam.log == old(steam.log))
        && (steam.initialized && blank.LobbyID == 0 ==>
              && connection == CONNECTING && lobbyInfo == blank.(LobbyID := target)
              && steam.log == old(steam.log) + [T.JoinLobby(target)])
        && (steam.initialized && blank.LobbyID > 0 ==>
              && connection == CONNECTING && lobbyInfo == Disconnected(blank).(LobbyID := target)
              && steam.log == old(steam.log) + DisconnectCalls(steam, blank) + [T.JoinLobby(target)])
    {
      lobbyInfo := blank;
      var input := ScanConnectArg(args);
      if input == "" {
        return NoLobbyArgument;
      }
      var parsed := ParseUInt64(input);
      if parsed.None? {
        return InvalidLobbyArgument;
      }
      if parsed.value > 0 {
        JoinLobby(parsed.value);
        outcome := JoinAttempted;
      } else {
        outcome := ZeroLobby;
      }
    }

    /** `SendLobbyInfo(reqHost)`: write the snapshot to Steam, unless host
        authority is required and we do not have it. */
    method SendLobbyInfo(reqHost: bool)
      modifies steam
      ensures reqHost ==> steam.log == old(steam.log) + HostPush(steam, lobbyInfo)
      ensures !reqHost ==> steam.log == old(steam.log) + [T.SetLobbyData(lobbyInfo.LobbyID, lobbyInfo)]
    {
      if reqHost && !IsHost() {
        return;
      }
      steam.Call(T.SetLobbyData(lobbyInfo.LobbyID, lobbyInfo));
    }

    method SetConnectionState(c: ConnectionState)
      modifies this`connection
      ensures connection == c
    {
      connection := c;
    }

    /** Flip `Joinable` locally, tell Steam, then push if host. */
    method ToggleLobbyJoinable()
      modifies this`lobbyInfo, steam
      ensures lobbyInfo == old(lobbyInfo).(Joinable := !old(lobbyInfo.Joinable))
      ensures steam.log == old(steam.log)
        + [T.SetLobbyJoinable(lobbyInfo.LobbyID, lobbyInfo.Joinable)] + HostPush(steam, lobbyInfo)
    {
      lobbyInfo := lobbyInfo.(Joinable := !lobbyInfo.Joinable);
      steam.Call(T.SetLobbyJoinable(lobbyInfo.LobbyID, lobbyInfo.Joinable));
      SendLobbyInfo(true);
    }

    /** We are downloading; alone in the lobby, we start playing at once. */
    method SetReady()
      modifies this`lobbyInfo, this`downloading, steam
      ensures downloading
      ensures old(lobbyInfo.UsedSlots) == 1 ==>
        lobbyInfo == old(lobbyInfo).(Screen := PLAY_SONG)
        && steam.log == old(steam.log) + HostPush(steam, lobbyInfo)
      ensures old(lobbyInfo.UsedSlots) != 1 ==>
        lobbyInfo == old(lobbyInfo) && steam.log == old(steam.log)
    {
      downloading := true;
      if lobbyInfo.UsedSlots == 1 {
        StartPlaying();
      }
    }

    /** Forget one peer's readiness; with `push`, also clear our own download
        flag. */
    method ClearPlayerReady(steamId: u64, push: bool)
      modifies this`readyState, this`downloading
      ensures readyState == old(readyState) - {steamId}
      ensures downloading == (if push then false else old(downloading))
    {
      readyState := readyState - {steamId};
      if push {
        downloading := false;
      }
    }

    method StartPlaying()
      modifies this`lobbyInfo, steam
      ensures lobbyInfo == old(lobbyInfo).(Screen := PLAY_SONG)
      ensures steam.log == old(steam.log) + HostPush(steam, lobbyInfo)
    {
      lobbyInfo := lobbyInfo.(Screen := PLAY_SONG);
      SendLobbyInfo(true);
    }

    method StartGame()
      modifies this`lobbyInfo, steam
      ensures lobbyInfo == old(lobbyInfo).(Screen := IN_GAME)
      ensures steam.log == old(steam.log) + HostPush(steam, lobbyInfo)
    {
      lobbyInfo := lobbyInfo.(Screen := IN_GAME);
      SendLobbyInfo(true);
    }

    /** The ready map read per enumerated member, keyed by persona name;
        two members with the same name make `Dictionary.Add` throw. */
    method GetAllPlayerStatusesInLobby() returns (r: Result<map<string, bool>>)
      ensures r == PlayerStatuses(steam, lobbyInfo.LobbyID, readyState)
    {
      var ms := steam.Members(lobbyInfo.LobbyID);
      ghost var entries := StatusEntries(steam, ms, readyState);
      var status: map<string, bool> := map[];
      var i := 0;
      while i < |ms|
        invariant 0 <= i <= |ms|
        invariant AddEach(entries[i..], status) == AddEach(entries, map[])
      {
        var name := steam.PersonaName(ms[i]);
        assert entries[i..][0] == (name, IsReady(readyState, ms[i]));
        assert entries[i..][1..] == entries[i + 1..];
        if name in status {
          return Err(DuplicateKey);
        }
        status := status[name := IsReady(readyState, ms[i])];
        i := i + 1;
      }
      r := Ok(status);
    }

    /** As host: record the modifiers, show the waiting screen and push,
        after setting (and pushing) a loading status when a song is
        installed. Not as host: nothing. */
    method RequestPlay(gameplayModifiers: GameplayModifiers, installed: Option<Song>)
      modifies this`lobbyInfo, steam
      ensures !old(IsHost()) ==> lobbyInfo == old(lobbyInfo) && steam.log == old(steam.log)
      ensures old(IsHost()) ==>
        var status := if installed.Some?
                      then "Loading " + installed.value.songName + " by " + installed.value.songAuthorName
                      else old(lobbyInfo.Status);
        var withStatus := old(lobbyInfo).(Status := status);
        && lobbyInfo == withStatus.(GameplayModifiers := gameplayModifiers, Screen := WAITING)
        && steam.log == old(steam.log)
           + (if installed.Some? then [T.SetLobbyData(lobbyInfo.LobbyID, withStatus)] else [])
           + [T.SetLobbyData(lobbyInfo.LobbyID, lobbyInfo)]
    {
      if IsHost() {
        if installed.Some? {
          SetLobbyStatus("Loading " + installed.value.songName + " by " + installed.value.songAuthorName);
        }
        lobbyInfo := lobbyInfo.(GameplayModifiers := gameplayModifiers);
        lobbyInfo := lobbyInfo.(Screen := WAITING);
        SendLobbyInfo(true);
      }
    }

    /** Select a song locally and push if host. */
    method SetSong(songId: string, songName: string)
      modifies this`lobbyInfo, steam
      ensures lobbyInfo == old(lobbyInfo).(CurrentSongId := songId, CurrentSongName := songName)
      ensures steam.log == old(steam.log) + HostPush(steam, lobbyInfo)
    {
      lobbyInfo := lobbyInfo.(CurrentSongId := songId, CurrentSongName := songName);
      SendLobbyInfo(true);
    }

    /** Select a difficulty locally and push if host. */
    method SetDifficulty(songDifficulty: byte)
      modifies this`lobbyInfo, steam
      ensures lobbyInfo == old(lobbyInfo).(CurrentSongDifficulty := songDifficulty)
      ensures steam.log == old(steam.log) + HostPush(steam, lobbyInfo)
    {
      lobbyInfo := lobbyInfo.(CurrentSongDifficulty := songDifficulty);
      SendLobbyInfo(true);
    }

    /** Back to the menu screen (push), then the menu status (push). */
    method StopSong()
      modifies this`lobbyInfo, steam
      ensures lobbyInfo == old(lobbyInfo).(Screen := MENU, Status := WaitingInMenu)
      ensures steam.log == old(steam.log)
        + HostPush(steam, old(lobbyInfo).(Screen := MENU)) + HostPush(steam, lobbyInfo)
    {
      lobbyInfo := lobbyInfo.(Screen := MENU);
      SendLobbyInfo(true);
      SetLobbyStatus(WaitingInMenu);
    }

    method ResetScreen()
      modifies this`lobbyInfo, steam
      ensures lobbyInfo == old(lobbyInfo).(Screen := NONE)
      ensures steam.log == old(steam.log) + HostPush(steam, lobbyInfo)
    {
      lobbyInfo := lobbyInfo.(Screen := NONE);
      SendLobbyInfo(true);
    }

    /** Forget every peer's readiness, push, then the menu status (push).
        The screen is left as it is. */
    method FinishSong()
      modifies this`readyState, this`lobbyInfo, steam
      ensures readyState == map[]
      ensures lobbyInfo == old(lobbyInfo).(Status := WaitingInMenu)
      ensures lobbyInfo.Screen == old(lobbyInfo.Screen)
      ensures steam.log == old(steam.log) + HostPush(steam, old(lobbyInfo)) + HostPush(steam, lobbyInfo)
    {
      readyState := map[];
      SendLobbyInfo(true);
      SetLobbyStatus(WaitingInMenu);
    }

    /** The slot count lies between 2 and `MaxSlots`. */
    predicate SlotsInRange()
      reads this
    {
      2 <= lobbyInfo.TotalSlots <= lobbyInfo.MaxSlots
    }

    /** One more slot, back to 2 past `MaxSlots`; push if host; the Steam
        member limit is set in any case. */
    method IncreaseSlots()
      modifies this`lobbyInfo, steam
      ensures lobbyInfo == old(lobbyInfo).(TotalSlots := NextTotalSlots(old(lobbyInfo.TotalSlots), old(lobbyInfo.MaxSlots)))
      ensures steam.log == old(steam.log)
        + HostPush(steam, lobbyInfo) + [T.SetLobbyMemberLimit(lobbyInfo.LobbyID, lobbyInfo.TotalSlots)]
      ensures old(SlotsInRange()) && lobbyInfo.MaxSlots as int < MaxI32 ==> SlotsInRange()
    {
      if SlotsInRange() && lobbyInfo.MaxSlots as int < MaxI32 {
        NextTotalSlotsInRange(lobbyInfo.TotalSlots, lobbyInfo.MaxSlots);
      }
      var total := AddWrap(lobbyInfo.TotalSlots, 1);
      lobbyInfo := lobbyInfo.(TotalSlots := total);
      if lobbyInfo.TotalSlots > lobbyInfo.MaxSlots {
        lobbyInfo := lobbyInfo.(TotalSlots := 2);
      }
      SendLobbyInfo(true);
      steam.Call(T.SetLobbyMemberLimit(lobbyInfo.LobbyID, lobbyInfo.TotalSlots));
    }

    /** `UsedSlots += 1` in `int` arithmetic, then push if host. */
    method PlayerConnected()
      modifies this`lobbyInfo, steam
      ensures lobbyInfo == old(lobbyInfo).(UsedSlots := AddWrap(old(lobbyInfo.UsedSlots), 1))
      ensures steam.log == old(steam.log) + HostPush(steam, lobbyInfo)
    {
      lobbyInfo := lobbyInfo.(UsedSlots := AddWrap(lobbyInfo.UsedSlots, 1));
      SendLobbyInfo(true);
    }

    /** `UsedSlots -= 1` in `int` arithmetic, then push if host. */
    method PlayerDisconnected()
      modifies this`lobbyInfo, steam
      ensures lobbyInfo == old(lobbyInfo).(UsedSlots := AddWrap(old(lobbyInfo.UsedSlots), -1))
      ensures steam.log == old(steam.log) + HostPush(steam, lobbyInfo)
    {
      lobbyInfo := lobbyInfo.(UsedSlots := AddWrap(lobbyInfo.UsedSlots, -1));
      SendLobbyInfo(true);
    }

    /** A search result arrived: rebuild the list of other lobbies. */
    method OnLobbyMatchList(parse: string -> LobbyInfo)
      modifies this`lobbyData
      ensures !steam.initialized ==> lobbyData == old(lobbyData)
      ensures steam.initialized ==> lobbyData == FoundLobbies(steam, parse, lobbyInfo.LobbyID)
    {
      if !steam.initialized {
        return;
      }
      lobbyData := map[];
      var ids := steam.matchList;
      ghost var own := lobbyInfo.LobbyID;
      ghost var found := FoundLobbies(steam, parse, own);
      var i := 0;
      while i < |ids|
        invariant 0 <= i <= |ids|
        invariant lobbyInfo.LobbyID == own
        invariant CollectLobbies(steam, parse, own, ids[i..], lobbyData) == found
      {
        var lobbyId := ids[i];
        assert ids[i..][0] == lobbyId && ids[i..][1..] == ids[i + 1..];
        if lobbyId != lobbyInfo.LobbyID {
          var info := parse(steam.LobbyBlob(lobbyId));
          var outcome := SetOtherLobbyData(lobbyId, info);
          if outcome == AlreadyListed {
            break;
          }
        }
        i := i + 1;
      }
    }

    /** Record a found lobby with Steam's member count, when it has members
        and a host name. */
    method SetOtherLobbyData(lobbyId: u64, info: LobbyInfo) returns (outcome: ListOutcome)
      modifies this`lobbyData
      ensures var entry := info.(UsedSlots := steam.MemberCount(lobbyId));
        && (!Listable(entry) ==> outcome == Skipped && lobbyData == old(lobbyData))
        && (Listable(entry) && lobbyId in old(lobbyData) ==>
              outcome == AlreadyListed && lobbyData == old(lobbyData))
        && (Listable(entry) && lobbyId !in old(lobbyData) ==>
              outcome == Added && lobbyData == old(lobbyData)[lobbyId := entry])
    {
      var entry := info.(UsedSlots := steam.MemberCount(lobbyId));
      if entry.UsedSlots > 0 && entry.HostName != "" {
        if lobbyId in lobbyData {
          return AlreadyListed;
        }
        lobbyData := lobbyData[lobbyId := entry];
        return Added;
      }
      return Skipped;
    }

    /** Ask Steam for a new lobby, public or friends-only as the shared
        settings say and sized by them, unless already connected. The
        settings are read through `Config.Instance`, which creates the
        default, unsaved instance when there is none. */
    method CreateLobby(store: Config.ConfigStore)
      requires store.Valid()
      modifies steam, store`instance
      ensures store.Valid()
      ensures IsLobbyConnected() ==> steam.log == old(steam.log) && store.instance == old(store.instance)
      ensures !IsLobbyConnected() && old(store.instance) != null ==>
        && store.instance == old(store.instance)
        && steam.log == old(steam.log)
           + [T.CreateLobby(if store.instance.isPublic then T.Public else T.FriendsOnly,
                            store.instance.maxLobbySize)]
      ensures !IsLobbyConnected() && old(store.instance) == null ==>
        && store.instance != null && fresh(store.instance)
        && store.instance.Current() == Config.Defaults && store.instance.isDirty
        && steam.log == old(steam.log) + [T.CreateLobby(T.Public, 5)]
    {
      if IsLobbyConnected() {
        return;
      }
      var config := store.Instance();
      steam.Call(T.CreateLobby(if config.isPublic then T.Public else T.FriendsOnly, config.maxLobbySize));
    }

    /** Steam created our lobby: take its id and our name, count as connected,
        and as its owner set the menu status and push twice. */
    method OnLobbyCreated(lobbyId: u64, ioFailure: bool)
      modifies this`lobbyInfo, this`connection, steam
      ensures !steam.initialized || ioFailure ==>
        lobbyInfo == old(lobbyInfo) && connection == old(connection) && steam.log == old(steam.log)
      ensures steam.initialized && !ioFailure ==>
        var owner := steam.Owner(lobbyId) == steam.userId;
        && connection == CONNECTED
        && lobbyInfo == old(lobbyInfo).(LobbyID := lobbyId, HostName := steam.userName,
                                        Status := if owner then WaitingInMenu else old(lobbyInfo.Status))
        && steam.log == old(steam.log)
           + (if owner then [T.SetLobbyData(lobbyId, lobbyInfo), T.SetLobbyData(lobbyId, lobbyInfo)] else [])
    {
      if !steam.initialized {
        return;
      }
      if !ioFailure {
        lobbyInfo := lobbyInfo.(LobbyID := lobbyId);
        lobbyInfo := lobbyInfo.(HostName := steam.userName);
        var hostUserId := steam.Owner(lobbyInfo.LobbyID);
        connection := CONNECTED;
        if hostUserId == steam.userId {
          SetLobbyStatus(WaitingInMenu);
          SendLobbyInfo(true);
        }
      }
    }

    /** Join a lobby: fail without Steam; leave the current lobby first. */
    method JoinLobby(lobbyId: u64)
      modifies this`lobbyInfo, this`connection, steam
      ensures !steam.initialized ==>
        connection == FAILED && lobbyInfo == old(lobbyInfo) && steam.log == old(steam.log)
      ensures steam.initialized && old(lobbyInfo.LobbyID) == 0 ==>
        && connection == CONNECTING && lobbyInfo == old(lobbyInfo).(LobbyID := lobbyId)
        && steam.log == old(steam.log) + [T.JoinLobby(lobbyId)]
      ensures steam.initialized && old(lobbyInfo.LobbyID) > 0 ==>
        && connection == CONNECTING && lobbyInfo == Disconnected(old(lobbyInfo)).(LobbyID := lobbyId)
        && steam.log == old(steam.log) + DisconnectCalls(steam, old(lobbyInfo)) + [T.JoinLobby(lobbyId)]
    {
      if !steam.initialized {
        connection := FAILED;
        return;
      }
      if lobbyInfo.LobbyID > 0 {
        Disconnect();
      }
      connection := CONNECTING;
      lobbyInfo := lobbyInfo.(LobbyID := lobbyId);
      steam.Call(T.JoinLobby(lobbyId));
    }

    /** Whether a user is among the current lobby's members; false without
        Steam. */
    method IsMemberInSteamLobby(steamUser: u64) returns (found: bool)
      ensures found <==> steam.initialized && steamUser in steam.Members(lobbyInfo.LobbyID)
    {
      if !steam.initialized {
        return false;
      }
      var ms := steam.Members(lobbyInfo.LobbyID);
      var i := 0;
      while i < |ms|
        invariant 0 <= i <= |ms|
        invariant steamUser !in ms[..i]
      {
        if ms[i] == steamUser {
          return true;
        }
        i := i + 1;
      }
      assert ms[..i] == ms;
      return false;
    }

    /** The current lobby's members with their persona names; empty
        without Steam. */
    method GetMembersInLobby() returns (r: Result<map<u64, string>>)
      ensures r == MembersInLobby(steam, lobbyInfo.LobbyID)
    {
      if !steam.initialized {
        return Ok(map[]);
      }
      var ms := steam.Members(lobbyInfo.LobbyID);
      ghost var entries := MemberEntries(steam, ms);
      var members: map<u64, string> := map[];
      var i := 0;
      while i < |ms|
        invariant 0 <= i <= |ms|
        invariant AddEach(entries[i..], members) == AddEach(entries, map[])
      {
        var member := ms[i];
        assert entries[i..][0] == (member, steam.PersonaName(member));
        assert entries[i..][1..] == entries[i + 1..];
        if member in members {
          return Err(DuplicateKey);
        }
        members := members[member := steam.PersonaName(member)];
        i := i + 1;
      }
      r := Ok(members);
    }

    /** Replace the snapshot wholesale (a snapshot received from the host). */
    method UpdateLobbyInfo(info: LobbyInfo)
      modifies this`lobbyInfo
      ensures lobbyInfo == info
    {
      lobbyInfo := info;
    }

    /** Set the status text and push if host. */
    method SetLobbyStatus(value: string)
      modifies this`lobbyInfo, steam
      ensures lobbyInfo == old(lobbyInfo).(Status := value)
      ensures steam.log == old(steam.log) + HostPush(steam, lobbyInfo)
    {
      lobbyInfo := lobbyInfo.(Status := value);
      SendLobbyInfo(true);
    }

    /** Send a packet to every enumerated member of the lobby except us. */
    method SendToAllInLobby(bytes: seq<byte>)
      modifies steam
      ensures steam.log == old(steam.log) + FanOut(steam.Members(lobbyInfo.LobbyID), steam.userId, bytes)
    {
      var ms := steam.Members(lobbyInfo.LobbyID);
      var i := 0;
      while i < |ms|
        invariant 0 <= i <= |ms|
        invariant steam.log == old(steam.log) + FanOut(ms[..i], steam.userId, bytes)
      {
        var member := ms[i];
        assert ms[..i + 1][..i] == ms[..i];
        if member != steam.userId {
          steam.Call(T.SendP2PPacket(member, bytes));
        }
        i := i + 1;
      }
      assert ms[..i] == ms;
    }

    /** Leave the lobby: clear the host name and push it (if host), count as
        disconnected, reset the lobby id, then leave lobby 0 and remove the
        avatars. */
    method Disconnect()
      modifies this`lobbyInfo, this`connection, steam
      ensures lobbyInfo == Disconnected(old(lobbyInfo))
      ensures lobbyInfo.HostName == "" && lobbyInfo.LobbyID == 0 && connection == DISCONNECTED
      ensures steam.log == old(steam.log) + DisconnectCalls(steam, old(lobbyInfo))
    {
      lobbyInfo := lobbyInfo.(HostName := "");
      SendLobbyInfo(true);
      connection := DISCONNECTED;
      lobbyInfo := lobbyInfo.(LobbyID := 0);
      steam.Call(T.LeaveLobby(lobbyInfo.LobbyID));
      steam.Call(T.DestroyAvatars);
    }
  }
}
