/** Client methods that drive short sessions through the controller's and
    the settings' contracts alone. */
module Scenarios {
  import opened Types
  import opened LobbyInfoModel
  import T = Steamworks
  import opened SteamAPI
  import Config

  const Me: u64 := 7
  const Friend: u64 := 8
  const Lobby: u64 := 100
  const OtherLobby: u64 := 200

  function Blank(): (info: LobbyInfo) {
    LobbyInfo(0, "", "", true, 2, 5, 1, "", "", 0, GameplayModifiers(map[]), NONE)
  }

  /** We create a lobby of at most five: the menu status is pushed twice;
      four slot increases give 3, 4, 5 and then 2 again, each followed by
      the member limit. */
  method HostCreatesAndCyclesSlots() {
    var steam := new T.SteamTransport(true, Me, "me", map[Lobby := Me], map[Lobby := [Me]],
                                      map[Me := "me"], [], map[]);
    var api := new SteamAPI(steam, Blank());
    api.OnLobbyCreated(Lobby, false);
    assert api.connection == CONNECTED && api.lobbyInfo.Status == WaitingInMenu;
    assert |steam.log| == 2;
    api.IncreaseSlots();
    assert api.lobbyInfo.TotalSlots == 3;
    api.IncreaseSlots();
    api.IncreaseSlots();
    assert api.lobbyInfo.TotalSlots == 5;
    api.IncreaseSlots();
    assert api.lobbyInfo.TotalSlots == 2;
    assert steam.log[|steam.log| - 1] == T.SetLobbyMemberLimit(Lobby, 2);
  }

  /** Creating a lobby before the settings are loaded: the default settings
      object is created on the way and the lobby is public, for five. */
  method CreateBeforeSettings() {
    var steam := new T.SteamTransport(true, Me, "me", map[], map[], map[], [], map[]);
    var api := new SteamAPI(steam, Blank());
    var file := new Config.ConfigFile(None, true);
    var store := new Config.ConfigStore(file);
    api.CreateLobby(store);
    assert steam.log == [T.CreateLobby(T.Public, 5)];
    assert store.instance != null && store.instance.isDirty && file.writes == 0;
  }

  /** As host we pick a song and then a difficulty: two pushes, the last
      snapshot carrying both. */
  method HostSelectsSong() {
    var steam := new T.SteamTransport(true, Me, "me", map[Lobby := Me], map[Lobby := [Me, Friend]],
                                      map[], [], map[]);
    var api := new SteamAPI(steam, Blank().(LobbyID := Lobby));
    api.SetSong("abc123", "Song A");
    api.SetDifficulty(3);
    assert |steam.log| == 2;
    var last := steam.log[1];
    assert last.SetLobbyData? && last.info.CurrentSongId == "abc123" && last.info.CurrentSongDifficulty == 3;
  }

  /** As a follower the same selection changes our snapshot and pushes
      nothing. */
  method FollowerSelectsSong() {
    var steam := new T.SteamTransport(true, Me, "me", map[Lobby := Friend], map[Lobby := [Friend, Me]],
                                      map[], [], map[]);
    var api := new SteamAPI(steam, Blank().(LobbyID := Lobby));
    api.SetSong("abc123", "Song A");
    assert api.lobbyInfo.CurrentSongId == "abc123";
    assert steam.log == [];
  }

  /** A follower joining another lobby disconnects first: it leaves lobby 0,
      not the lobby it was in, and then joins. */
  method FollowerSwitchesLobby() {
    var steam := new T.SteamTransport(true, Me, "me", map[Lobby := Friend], map[Lobby := [Friend, Me]],
                                      map[], [], map[]);
    var api := new SteamAPI(steam, Blank().(LobbyID := Lobby));
    api.JoinLobby(OtherLobby);
    assert api.connection == CONNECTING && api.lobbyInfo.LobbyID == OtherLobby;
    assert steam.log == [T.LeaveLobby(0), T.DestroyAvatars, T.JoinLobby(OtherLobby)];
  }

  /** Without Steam a join fails and keeps the lobby id. */
  method JoinWithoutSteam() {
    var steam := new T.SteamTransport(false, Me, "me", map[], map[], map[], [], map[]);
    var api := new SteamAPI(steam, Blank().(LobbyID := Lobby));
    api.JoinLobby(OtherLobby);
    assert api.connection == FAILED && api.lobbyInfo.LobbyID == Lobby && steam.log == [];
  }

  /** Alone in our lobby, getting ready starts the song at once. */
  method SoloReady() {
    var steam := new T.SteamTransport(true, Me, "me", map[Lobby := Me], map[Lobby := [Me]],
                                      map[], [], map[]);
    var api := new SteamAPI(steam, Blank().(LobbyID := Lobby, UsedSlots := 1));
    api.SetReady();
    assert api.downloading && api.lobbyInfo.Screen == PLAY_SONG && |steam.log| == 1;
  }

  /** A first start without a settings file: the defaults are written and
      the config is clean; a later setter rewrites the file. */
  method FirstStartConfig() {
    var file := new Config.ConfigFile(None, true);
    var store := new Config.ConfigStore(file);
    store.Init();
    var c := store.Instance();
    assert c.Current() == Config.Defaults && !c.isDirty;
    assert file.stored == Some(Config.Defaults) && file.writes == 1;
    var saved := c.Save();
    assert !saved && file.writes == 1;
    c.SetIsPublic(false);
    assert file.stored == Some(Config.Defaults.(IsPublic := false)) && !c.isDirty;
  }

  /** Reloading an unsaved default instance: it is saved first, dropped,
      and the defaults come back from the file in a new, clean instance. */
  method ReloadSavesFirst() {
    var file := new Config.ConfigFile(None, true);
    var store := new Config.ConfigStore(file);
    var c := store.Instance();
    store.Reload();
    assert !c.isDirty && file.stored == Some(Config.Defaults) && file.writes == 2;
    assert store.instance != null && store.instance != c;
    assert store.instance.Current() == Config.Defaults && !store.instance.isDirty;
  }

  /** A read-only settings directory: every save fails and the config stays
      dirty. */
  method ReadOnlyConfig() {
    var file := new Config.ConfigFile(None, false);
    var store := new Config.ConfigStore(file);
    store.Init();
    var c := store.Instance();
    assert c.isDirty && file.stored == None;
    c.SetMaxLobbySize(4);
    assert c.isDirty && c.Current().MaxLobbySize == 4 && file.stored == None;
  }
}
