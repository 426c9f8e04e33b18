/** The lobby snapshot that the host publishes under the "LOBBY_INFO" key.
    In the source it is a mutable class; here it is a value, and every
    field assignment of the source becomes a datatype update. */
module LobbyInfoModel {
  import opened Types

  /** `LobbyInfo.SCREEN_TYPE`. */
  datatype Screen = NONE | MENU | WAITING | PLAY_SONG | IN_GAME

  /** The game's gameplay modifiers, carried through the snapshot untouched:
      a collection of named toggles whose meaning the lobby code never reads. */
  datatype GameplayModifiers = GameplayModifiers(toggles: map<string, bool>)

  /** The fields of `LobbyInfo` that the lobby controller reads or writes. */
  datatype LobbyInfo = LobbyInfo(
    LobbyID: u64,
    HostName: string,
    Status: string,
    Joinable: bool,
    TotalSlots: i32,
    MaxSlots: i32,
    UsedSlots: i32,
    CurrentSongId: string,
    CurrentSongName: string,
    CurrentSongDifficulty: byte,
    GameplayModifiers: GameplayModifiers,
    Screen: Screen)
}
