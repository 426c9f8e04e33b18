/** The Steam layer as the lobby controller sees it. What Steam reports
    (initialisation, our own identity, lobby owners and members, persona
    names, the result of a lobby search, the metadata stored on other
    lobbies) is fixed when the transport is built; every call the
    controller makes into Steam or into the game's avatar code is appended,
    in order, to one call log. */
module Steamworks {
  import opened Types
  import opened LobbyInfoModel

  /** `ELobbyType` values the controller uses. */
  datatype LobbyType = Public | FriendsOnly

  /** Steam limits a lobby to far fewer members than `int` can count. */
  type MemberList = s: seq<u64> | |s| <= MaxI32

  /** One call into the outside world, as recorded in the call log. */
  datatype SteamCall =
    | SetLobbyData(lobby: u64, info: LobbyInfo)        // SetLobbyData(lobby, "LOBBY_INFO", info.Serialize())
    | SetLobbyJoinable(lobby: u64, joinable: bool)
    | SetLobbyMemberLimit(lobby: u64, limit: i32)
    | CreateLobby(lobbyType: LobbyType, maxMembers: i32)
    | JoinLobby(lobby: u64)
    | LeaveLobby(lobby: u64)
    | SendP2PPacket(to: u64, bytes: seq<byte>)         // always EP2PSend.k_EP2PSendReliable
    | DestroyAvatars                                   // PlayerController.Instance.DestroyAvatars()

  class SteamTransport {
    /** `SteamManager.Initialized`. */
    const initialized: bool
    /** `SteamUser.GetSteamID()` and `SteamFriends.GetPersonaName()`. */
    const userId: u64
    const userName: string
    /** `GetLobbyOwner` per lobby; a lobby not listed has the nil owner 0. */
    const owners: map<u64, u64>
    /** `GetLobbyMemberByIndex(lobby, 0 .. GetNumLobbyMembers(lobby) - 1)`. */
    const members: map<u64, MemberList>
    /** `GetFriendPersonaName` per user. */
    const personaNames: map<u64, string>
    /** `GetLobbyByIndex(0 .. n - 1)` after a lobby search. */
    const matchList: seq<u64>
    /** `GetLobbyData(lobby, "LOBBY_INFO")` per lobby. */
    const lobbyBlobs: map<u64, string>

    var log: seq<SteamCall>

    constructor (initialized: bool, userId: u64, userName: string,
                 owners: map<u64, u64>, members: map<u64, MemberList>,
                 personaNames: map<u64, string>, matchList: seq<u64>,
                 lobbyBlobs: map<u64, string>)
      ensures this.initialized == initialized && this.userId == userId && this.userName == userName
      ensures this.owners == owners && this.members == members && this.personaNames == personaNames
      ensures this.matchList == matchList && this.lobbyBlobs == lobbyBlobs
      ensures log == []
    {
      this.initialized := initialized;
      this.userId := userId;
      this.userName := userName;
      this.owners := owners;
      this.members := members;
      this.personaNames := personaNames;
      this.matchList := matchList;
      this.lobbyBlobs := lobbyBlobs;
      log := [];
    }

    function Owner(lobby: u64): (owner: u64) {
      if lobby in owners then owners[lobby] else 0
    }

    function Members(lobby: u64): (ms: MemberList) {
      if lobby in members then members[lobby] else []
    }

    /** `GetNumLobbyMembers`. */
    function MemberCount(lobby: u64): (n: i32) {
      |Members(lobby)| as i32
    }

    /** Steam answers with the empty string for a user it has no name for. */
    function PersonaName(user: u64): (name: string) {
      if user in personaNames then personaNames[user] else ""
    }

    /** Steam answers with the empty string for a key that is not set. */
    function LobbyBlob(lobby: u64): (blob: string) {
      if lobby in lobbyBlobs then lobbyBlobs[lobby] else ""
    }

    /** Perform one call: it is appended to the log. */
    method Call(c: SteamCall)
      modifies this
      ensures log == old(log) + [c]
    {
      log := log + [c];
    }
  }
}
