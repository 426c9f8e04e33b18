# BeatSaberOnline lobby controller, modelled in Dafny

BeatSaberOnline lets a few Beat Saber players share a Steam lobby. One
static class, `SteamAPI`, keeps the local view of the lobby:

- the live `LobbyInfo`, a snapshot of the lobby;
- the per-peer `ReadyState` map;
- the `ConnectionState`;
- the list of other lobbies found by a search.

Most mutators change the local snapshot and then call
`SendLobbyInfo(true)`. That call writes the snapshot to Steam's lobby data
only when we are the lobby's host. `UpdateLobbyInfo` and `JoinLobby` change
the snapshot without a push of their own. `ClearPlayerReady` and
`SetConnectionState` do not change it. `SetReady` pushes only in a one-slot
lobby, and `RequestPlay` does nothing unless we are host. A small `Config` object holds six user
settings. Any change marks it dirty and saves it to a JSON file at once.

This project models both in Dafny:

- **types.dfy** (`Types`): the C# integer widths (`ulong`, `int`, `byte`),
  wrap-around `int` addition, and the error of a `Dictionary.Add` on a key
  that is already present.
- **lobby_info.dfy** (`LobbyInfoModel`): the `LobbyInfo` fields the
  controller uses and the screen enum, as a value.
- **steamworks.dfy** (`Steamworks`): the Steam side as a transport object.
  What Steam reports is fixed when the object is built: initialisation, our
  id and name, lobby owners, ordered member lists, persona names, search
  results and stored lobby data. Every call that acts on Steam (lobby
  data, joinability, member limit, create, join, leave, packets), and the
  avatar clean-up, is appended in order to one call log. Queries such as
  `GetLobbyOwner` or `GetNumLobbyMembers`, and the registration of call
  results, are reads of the transport's fields and are not logged.
- **lobby_rules.dfy** (`LobbyRules`): the value-level rules the
  controller's loops are proved against, with their lemmas. These are the
  argument scan, the decimal handle, slot wrap-around, repeated
  `Dictionary.Add`, the status and member maps, the lobby search result and
  the packet fan-out.
- **steam_api.dfy** (`SteamAPI`): the controller as a class. The static
  fields become fields and every mutator is a method. Its postcondition
  gives the new snapshot and the exact calls appended to the log.
- **config.dfy** (`Config`): the settings object, the settings file (a read
  result, whether writes succeed, a count of writes) and the static side
  (`ConfigStore`: the lazy instance, `Load`, `Create`, `Init`, `Reload`).
- **scenarios.dfy** (`Scenarios`): client methods that drive short sessions
  through the contracts alone.

The model follows the code where it differs from what one might expect:

- `FinishSong` leaves the screen as it is.
- `SetReady` does not touch `ReadyState`. In a one-slot lobby it moves to
  `PLAY_SONG`.
- `ToggleLobbyJoinable`, `SetSong`, `SetDifficulty`, `IncreaseSlots` and
  `PlayerConnected` change the local snapshot even when we are not host.
  Only the push is skipped.
- `Disconnect` resets the lobby id before it calls `LeaveLobby`, so it
  always leaves lobby 0. It runs inside one `try`; its steps are not guarded
  one by one.
- A non-numeric `+connect_lobby` argument makes `Convert.ToUInt64` throw.
  It is not ignored, and here it is an `InvalidLobbyArgument` outcome.
- Several operations do not check that Steam is initialised:
  `SendToAllInLobby`, `getAllPlayerStatusesInLobby` and `CreateLobby`.
- `JoinLobby` only moves to `CONNECTING`. Nothing in the modelled code moves
  a join to `CONNECTED`.
- `Dictionary.Add` throws on a repeated key, and the model keeps that. In
  `getAllPlayerStatusesInLobby` the key is the persona name, so two members
  with the same name give `Err(DuplicateKey)`. In `OnLobbyMatchList` a
  repeated lobby ends the scan, because the `catch` around the loop stops
  it there.

## Model

| member | source | states |
|---|---|---|
| `LobbyRules.ScanConnectArg` | BeatSaberOnline/Data/Steam/SteamAPI.cs:48-56 | The argument loop of `Init` returns exactly `ConnectArg(args)`: the argument after the last `+connect_lobby` that has one after it, or "" |
| `LobbyRules.ConnectArgIsLastFlag` | BeatSaberOnline/Data/Steam/SteamAPI.cs:50-56 | If `args[i]` is the flag, `i + 1` is in range and no later flag has an argument after it, the handle is `args[i + 1]` (later assignments win) |
| `LobbyRules.ConnectArgWithoutFlag` | BeatSaberOnline/Data/Steam/SteamAPI.cs:49-56 | With no flag followed by an argument, the handle stays "" |
| `LobbyRules.ParseUInt64` | BeatSaberOnline/Data/Steam/SteamAPI.cs:60 | A handle is accepted exactly when it is a non-empty string of digits denoting a number below 2^64 (leading zeros included), and then its value is that number |
| `LobbyRules.ParseFormatRoundTrip` | BeatSaberOnline/Data/Steam/SteamAPI.cs:60 | Every `ulong` written in decimal parses back to itself |
| `LobbyRules.FormatDecimalDigits` | BeatSaberOnline/Data/Steam/SteamAPI.cs:60 | The decimal spelling of `n` is a non-empty digit string that denotes `n` |
| `LobbyRules.ParseRejectsNonDigit` | BeatSaberOnline/Data/Steam/SteamAPI.cs:60 | A string with a non-digit anywhere in it fails to convert |
| `SteamAPI.SteamAPI.Init` | BeatSaberOnline/Data/Steam/SteamAPI.cs:45-67 | The snapshot is reset first. No argument or "" means nothing else happens. An unconvertible handle is a failure outcome. Handle 0 does nothing. A positive handle gives exactly the state and calls of `JoinLobby(handle)` |
| `SteamAPI.IsHostOf` | BeatSaberOnline/Data/Steam/SteamAPI.cs:210-218 | We are host of a snapshot exactly when its lobby id is 0 or Steam names us as that lobby's owner |
| `SteamAPI.SteamAPI.IsHost` | BeatSaberOnline/Data/Steam/SteamAPI.cs:210-218 | `IsHostOf` applied to the live snapshot |
| `SteamAPI.SteamAPI.SendLobbyInfo` | BeatSaberOnline/Data/Steam/SteamAPI.cs:259-263 | With `reqHost`, the snapshot is appended under its lobby id exactly when the lobby id is 0 or Steam names us as owner; otherwise nothing is appended |
| `SteamAPI.SteamAPI.SetConnectionState` | BeatSaberOnline/Data/Steam/SteamAPI.cs:100-103 | Only the connection state changes, to the given value |
| `SteamAPI.SteamAPI.ToggleLobbyJoinable` | BeatSaberOnline/Data/Steam/SteamAPI.cs:116-121 | `Joinable` flips whether or not we are host. Steam is told the new value, then the snapshot is pushed if we are host. Nothing else changes |
| `SteamAPI.SteamAPI.SetReady` | BeatSaberOnline/Data/Steam/SteamAPI.cs:122-132 | Our download flag becomes true. With `UsedSlots == 1` the screen becomes `PLAY_SONG` and is pushed if we are host. Otherwise snapshot and log are unchanged. `ReadyState` is never touched |
| `SteamAPI.SteamAPI.ClearPlayerReady` | BeatSaberOnline/Data/Steam/SteamAPI.cs:138-146 | Only key `id` leaves `ReadyState`. Our download flag becomes false exactly when `push` holds. Snapshot and log are unchanged |
| `SteamAPI.SteamAPI.StartPlaying` | BeatSaberOnline/Data/Steam/SteamAPI.cs:148-152 | Screen becomes `PLAY_SONG`, then a host-guarded push |
| `SteamAPI.SteamAPI.StartGame` | BeatSaberOnline/Data/Steam/SteamAPI.cs:153-157 | Screen becomes `IN_GAME`, then a host-guarded push |
| `SteamAPI.SteamAPI.GetAllPlayerStatusesInLobby` | BeatSaberOnline/Data/Steam/SteamAPI.cs:159-170 | The member loop returns exactly `PlayerStatuses` for the current lobby, including the duplicate-name failure |
| `LobbyRules.PlayerStatusesReport` | BeatSaberOnline/Data/Steam/SteamAPI.cs:159-170 | The status map exists iff members' persona names are pairwise distinct. Its keys are then the members' names, and a member reads `true` iff `ReadyState` holds `true` for it; an absent member reads `false` |
| `LobbyRules.AddEachSpec` | BeatSaberOnline/Data/Steam/SteamAPI.cs:167 | Repeated `Dictionary.Add` succeeds iff all keys are new and distinct. Then the map holds the old entries plus every added pair |
| `SteamAPI.SteamAPI.RequestPlay` | BeatSaberOnline/Data/Steam/SteamAPI.cs:171-191 | Not as host, nothing at all. As host: with an installed song, the status "Loading <song> by <author>" is pushed. Then the modifiers and the `WAITING` screen are set and pushed |
| `SteamAPI.SteamAPI.SetSong` | BeatSaberOnline/Data/Steam/SteamAPI.cs:202-208 | Song id and name change whether or not we are host, then a host-guarded push |
| `SteamAPI.SteamAPI.SetDifficulty` | BeatSaberOnline/Data/Steam/SteamAPI.cs:220-225 | The difficulty changes whether or not we are host, then a host-guarded push |
| `SteamAPI.SteamAPI.StopSong` | BeatSaberOnline/Data/Steam/SteamAPI.cs:227-234 | Screen `MENU` is pushed, then status "Waiting In Menu" is pushed (both host-guarded) |
| `SteamAPI.SteamAPI.ResetScreen` | BeatSaberOnline/Data/Steam/SteamAPI.cs:236-242 | Screen becomes `NONE`, then a host-guarded push |
| `SteamAPI.SteamAPI.FinishSong` | BeatSaberOnline/Data/Steam/SteamAPI.cs:248-257 | `ReadyState` becomes empty and status "Waiting In Menu". The screen is unchanged. Two host-guarded pushes follow: the snapshot before and after the status |
| `SteamAPI.SteamAPI.IncreaseSlots` | BeatSaberOnline/Data/Steam/SteamAPI.cs:264-275 | `TotalSlots` becomes `NextTotalSlots`. It is pushed if we are host, then the member limit is set to it either way. `2 <= TotalSlots <= MaxSlots` is kept when `MaxSlots < int.MaxValue` |
| `LobbyRules.NextTotalSlots` | BeatSaberOnline/Data/Steam/SteamAPI.cs:266-270 | Old + 1 when that is at most `MaxSlots`, else 2. At `int.MaxValue` the addition wraps to `int.MinValue`, which is kept |
| `LobbyRules.NextTotalSlotsInRange` | BeatSaberOnline/Data/Steam/SteamAPI.cs:266-270 | One increase keeps the slot count between 2 and `MaxSlots` (for `MaxSlots < int.MaxValue`) |
| `LobbyRules.SlotsClimb` | BeatSaberOnline/Data/Steam/SteamAPI.cs:266-270 | From 2, after `k <= MaxSlots - 2` increases the count is `2 + k` |
| `LobbyRules.SlotsCycle` | BeatSaberOnline/Data/Steam/SteamAPI.cs:266-270 | From 2, `MaxSlots - 1` increases wrap the count back to 2 |
| `LobbyRules.SlotsScenarioFive` | BeatSaberOnline/Data/Steam/SteamAPI.cs:266-270 | With `MaxSlots = 5`, successive increases from 2 give 3, 4, 5, 2 |
| `SteamAPI.SteamAPI.PlayerConnected` | BeatSaberOnline/Data/Steam/SteamAPI.cs:336-340 | `UsedSlots` goes up by one in wrapping `int` arithmetic whether or not we are host, then a host-guarded push |
| `SteamAPI.SteamAPI.PlayerDisconnected` | BeatSaberOnline/Data/Steam/SteamAPI.cs:341-345 | `UsedSlots` goes down by one in wrapping `int` arithmetic, then a host-guarded push |
| `Types.AddWrap` | BeatSaberOnline/Data/Steam/SteamAPI.cs:338 | C# `int` addition: the exact sum when it fits, otherwise shifted by 2^32; in every case congruent to the sum modulo 2^32 |
| `Types.AddWrapInverse` | BeatSaberOnline/Data/Steam/SteamAPI.cs:336-345 | A wrapped `+ 1` followed by a wrapped `- 1` gives back the start value, across the overflow too: `PlayerDisconnected` undoes `PlayerConnected` on `UsedSlots` |
| `SteamAPI.SteamAPI.OnLobbyMatchList` | BeatSaberOnline/Data/Steam/SteamAPI.cs:347-375 | Without Steam the lobby list is unchanged. Otherwise it is cleared and rebuilt as exactly `FoundLobbies` for our lobby id. Snapshot, ready map and log are unchanged |
| `SteamAPI.SteamAPI.SetOtherLobbyData` | BeatSaberOnline/Data/Steam/SteamAPI.cs:554-563 | `UsedSlots` is replaced by Steam's member count. The entry is added iff that count is > 0 and the host name is non-empty. A lobby already listed changes nothing and reports the `Add` failure |
| `LobbyRules.FoundLobbiesSpec` | BeatSaberOnline/Data/Steam/SteamAPI.cs:347-375 | Our own lobby is never listed. Every entry is a search result with members, a host name and Steam's member count. When the search names each lobby once, exactly those lobbies are listed |
| `LobbyRules.CollectLobbiesSound` | BeatSaberOnline/Data/Steam/SteamAPI.cs:360-368 | Every newly collected lobby was found, is not ours, and is listable as Steam reports it |
| `LobbyRules.CollectLobbiesComplete` | BeatSaberOnline/Data/Steam/SteamAPI.cs:360-368 | Without repeated results, every listable found lobby other than ours is collected |
| `LobbyRules.CollectKeeps` | BeatSaberOnline/Data/Steam/SteamAPI.cs:360-368 | The scan never removes or changes an entry already listed |
| `LobbyRules.OtherLobbyEntry` | BeatSaberOnline/Data/Steam/SteamAPI.cs:556 | The considered entry carries Steam's member count as `UsedSlots` |
| `SteamAPI.SteamAPI.CreateLobby` | BeatSaberOnline/Data/Steam/SteamAPI.cs:377-383 | When already connected to a lobby, nothing. Otherwise the settings are read through the shared `Config.Instance` and one create request is made, public or friends-only as its `IsPublic` says, with its `MaxLobbySize` members. With no instance yet, a fresh default, unsaved one is installed and the request is public for 5 |
| `SteamAPI.SteamAPI.IsLobbyConnected` | BeatSaberOnline/Data/Steam/SteamAPI.cs:397-400 | Connected exactly when Steam is initialised, the state is `CONNECTED` and the lobby id is positive |
| `SteamAPI.SteamAPI.OnLobbyCreated` | BeatSaberOnline/Data/Steam/SteamAPI.cs:401-423 | Without Steam or on I/O failure, nothing. Otherwise: the new lobby id, our name as host name, `CONNECTED`. If we own the lobby, status "Waiting In Menu" and two pushes of that snapshot |
| `SteamAPI.SteamAPI.JoinLobby` | BeatSaberOnline/Data/Steam/SteamAPI.cs:425-444 | Without Steam: `FAILED`, snapshot and log unchanged. Otherwise, when in a lobby, the calls of `Disconnect` come first. Then `CONNECTING`, the target lobby id and one join call |
| `SteamAPI.SteamAPI.IsMemberInSteamLobby` | BeatSaberOnline/Data/Steam/SteamAPI.cs:468-488 | True iff Steam is initialised and the user is among the current lobby's members |
| `SteamAPI.SteamAPI.GetMembersInLobby` | BeatSaberOnline/Data/Steam/SteamAPI.cs:490-506 | The member loop returns exactly `MembersInLobby` for the current lobby |
| `LobbyRules.MembersInLobbyReport` | BeatSaberOnline/Data/Steam/SteamAPI.cs:490-506 | Without Steam the map is empty. With Steam it exists iff no member is listed twice, and then it maps exactly the members to their persona names |
| `SteamAPI.SteamAPI.UpdateLobbyInfo` | BeatSaberOnline/Data/Steam/SteamAPI.cs:508-511 | The snapshot is replaced wholesale, with no push |
| `SteamAPI.SteamAPI.SetLobbyStatus` | BeatSaberOnline/Data/Steam/SteamAPI.cs:512-517 | The status changes, then a host-guarded push |
| `SteamAPI.SteamAPI.SendToAllInLobby` | BeatSaberOnline/Data/Steam/SteamAPI.cs:526-537 | The appended packets are exactly `FanOut` over the current lobby's members, in enumeration order |
| `LobbyRules.RecipientsSpec` | BeatSaberOnline/Data/Steam/SteamAPI.cs:529-536 | We are never a recipient, and every other member receives as many packets as it is enumerated |
| `LobbyRules.RecipientsMembership` | BeatSaberOnline/Data/Steam/SteamAPI.cs:529-536 | A user is a recipient iff it is an enumerated member other than us |
| `LobbyRules.RecipientsAppend` | BeatSaberOnline/Data/Steam/SteamAPI.cs:529-536 | The recipients of a concatenated member list are the concatenated recipients: enumeration order is kept |
| `LobbyRules.FanOut` | BeatSaberOnline/Data/Steam/SteamAPI.cs:534 | One reliable packet per recipient |
| `SteamAPI.SteamAPI.Disconnect` | BeatSaberOnline/Data/Steam/SteamAPI.cs:538-553 | Ends with host name "", `DISCONNECTED` and lobby id 0. Ready map and lobby list are unchanged. The host-guarded push of the cleared snapshot happens under the old lobby id, then `LeaveLobby(0)`, then avatar clean-up |
| `SteamAPI.DisconnectOrder` | BeatSaberOnline/Data/Steam/SteamAPI.cs:543-547 | As host, the first call writes the snapshot to the old lobby. Not as host, nothing is written. The old lobby is never left |
| `SteamAPI.SteamAPI.constructor` | BeatSaberOnline/Data/Steam/SteamAPI.cs:34-37 | Empty ready map, `UNDEFINED`, empty lobby list |
| `Config.Config.constructor` | BeatSaberOnline/Utils/Config.cs:138-147 | `AutoStartLobby` false, `IsPublic` true, `MaxLobbySize` 5, `NoFailMode` true, `DebugMode` false, `AvatarsInLobby` true, and dirty |
| `Config.Config.FromJson` | BeatSaberOnline/Utils/Config.cs:40 | The settings come from the file; the dirty flag, which is not serialised, is false |
| `Config.ConfigFile.Write` | BeatSaberOnline/Utils/Config.cs:154-158 | A write succeeds iff the file is writable. On success the file holds the settings with one more write; on failure it is unchanged |
| `Config.Config.Save` | BeatSaberOnline/Utils/Config.cs:149-167 | Clean: false, no write. Dirty: the result is the write's success, and the config is clean iff the write succeeded |
| `Config.Config.MarkDirty` | BeatSaberOnline/Utils/Config.cs:169-173 | Dirty, then saved: clean again iff the write succeeds |
| `Config.Config.MarkClean` | BeatSaberOnline/Utils/Config.cs:175-178 | Clean |
| `Config.Config.SetAutoStartLobby` | BeatSaberOnline/Utils/Config.cs:80-88 | Only this setting changes. One write attempt follows; on success the file holds the new settings and the config is clean |
| `Config.Config.SetIsPublic` | BeatSaberOnline/Utils/Config.cs:90-98 | Only this setting changes. One write attempt follows; on success the file holds the new settings and the config is clean |
| `Config.Config.SetMaxLobbySize` | BeatSaberOnline/Utils/Config.cs:100-108 | Only this setting changes. One write attempt follows; on success the file holds the new settings and the config is clean |
| `Config.Config.SetNoFailMode` | BeatSaberOnline/Utils/Config.cs:109-117 | Only this setting changes. One write attempt follows; on success the file holds the new settings and the config is clean |
| `Config.Config.SetDebugMode` | BeatSaberOnline/Utils/Config.cs:118-126 | Only this setting changes. One write attempt follows; on success the file holds the new settings and the config is clean |
| `Config.Config.SetAvatarsInLobby` | BeatSaberOnline/Utils/Config.cs:127-135 | Only this setting changes. One write attempt follows; on success the file holds the new settings and the config is clean |
| `Config.ConfigStore.Instance` | BeatSaberOnline/Utils/Config.cs:68-76 | With no instance, a fresh default one is created. Otherwise the same object is returned and nothing changes |
| `Config.ConfigStore.Load` | BeatSaberOnline/Utils/Config.cs:34-50 | With an instance: false, no effect. Unreadable file: false, no instance, no write. Otherwise a fresh instance of the file's settings, marked dirty and saved |
| `Config.ConfigStore.Create` | BeatSaberOnline/Utils/Config.cs:52-66 | With an instance: false, no effect. Otherwise true: a fresh default instance with one save attempt. A failed write leaves it dirty but still returns true |
| `Config.ConfigStore.Init` | BeatSaberOnline/Utils/Config.cs:19-23 | Falls back to `Create` (defaults and a save) only when `Load` fails; with an instance, nothing changes |
| `Config.ConfigStore.Reload` | BeatSaberOnline/Utils/Config.cs:25-32 | A dirty instance is saved first, and the dropped instance stays dirty exactly when that save fails. Then the file is loaded again: the reloaded settings are what is on disk after the save, and with nothing readable there is no instance. The file ends up holding that content, and the write count grows by one for each successful save (the first save and the load's own save) |

## Left out

- `LobbyRules.ParseUInt64`: only plain decimal digits are accepted. .NET's `Convert.ToUInt64` also accepts surrounding white space and a leading sign.
- `LobbyRules.ParseRejectsNonDigit`: as a statement about .NET it is too strong for white space around the digits and for a leading sign (" 5" and "+5" convert there); it holds of the digits-only conversion modelled here.
- `LobbyInfo` serialisation: the class is not part of this model. The push log records the snapshot value, not its string. Parsing another lobby's data is a function parameter of `OnLobbyMatchList`. No round-trip law is claimed.
- `SendPlayerInfo`: `PlayerInfo` and its serialisation are not part of this model. `SendToAllInLobby` models its fan-out.
- Aliasing: `LobbyInfo` is a value here. In the source, `UpdateLobbyInfo` keeps the caller's object and `SetOtherLobbyData` mutates it.
- The transport's answers are fixed for the life of a transport object. The effect of `CreateLobby`, `JoinLobby` or `LeaveLobby` on Steam's own owner and member lists is not simulated.
- `Init` also refreshes the user name and id and registers the Steam call results. Those are Steam calls; our id and name are transport fields.
- Before `Init` the source's snapshot is null. The model starts from a given blank snapshot, the one `new LobbyInfo()` yields, whose defaults are not shown.
- Plain getters are not modelled: `GetUserName`, `GetUserID`, `getLobbyID`, `GetConnectionState`, `IsLobbyJoinable`, `getSlotsOpen`, `GetGameplayModifiers`, `GetSongId`, `GetSongDifficulty` and `getUserCount` (Steam's member count plus one). They read one field or one Steam value.
- Steam-only queries with no logic of their own are not modelled: `UpdateUserInfo`, `GetOnlineFriends`, `RequestAvailableLobbies`, `RequestLobbies`, `OpenInviteScreen`, `InviteUserToLobby`, `GetGameID`.
- Exceptions other than `Dictionary.Add` on a present key are not modelled. These include a lobby blob that fails to parse, a throwing Steam call inside `Disconnect` or `RequestPlay`, and directory creation in `Load` and `Create`.
- `OnLobbyMatchList` ignores `bIOFailure`, as the source does. The number of results is the length of the search result list.
- UI and logging have no state here: `WaitingMenu.RefreshData`, `OnlineMenu.refreshLobbyList` and `Logger`.
- Steam callbacks are methods called one after another. Nothing about concurrency or late callbacks is claimed.
- `GameplayModifiers` is an opaque value that the controller only stores.
- `Config.ConfigFile.Write`: the file is modelled as holding the six settings a save writes. The source keeps them in private fields without `[SerializeField]` (`BeatSaberOnline/Utils/Config.cs:9-14`), and by Unity's documented `JsonUtility` rules such fields are not serialised, so `ToJson` would write none of them. The model states the evident intent of the save, not that outcome. A failed write leaves the file as it was.
- `Config.Config.FromJson`: the loaded object is modelled as carrying the file's six settings. By the same `JsonUtility` rules, `FromJson<Config>` cannot fill private fields, so as written every setting would keep either the constructor's defaults or its type's default (false or 0), depending on whether `JsonUtility` runs the constructor. In both cases the file's values are lost and settings would not survive a restart. This depends on Unity's serialiser, which is not part of this model.
- `Config.ConfigStore.Reload` requires an instance, because the source dereferences `_instance` without a check.
- `BeatSaberOnline/Utils/SongDownloader.cs` (HTTP, zip extraction, a coroutine) and `MockPartyViewController.cs` (UI glue that only reads the controller and calls its mutators) are not part of this model.
