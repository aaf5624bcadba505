/** The bot's roll engine: the process-wide state (`seen_urls`, the settings
    map and the inventory map) and the commands that read and change it. */
module Engine {
  import opened Outcome
  import opened Rarity
  import opened Resolver
  import opened Inventory
  import opened Settings

  /** What a successful roll hands back to the chat layer: the stored record,
      the image to show, and which of the two best-effort side effects the
      roller's settings ask for (a DM, a delayed delete of the message). */
  datatype Rolled = Rolled(item: Item, url: string, notify: bool, scheduleDelete: bool)

  /** The settings `user_settings` yields: the stored ones or the defaults. */
  function SettingsOf(settings: map<string, UserSettings>, uid: string): UserSettings
  {
    if uid in settings then settings[uid] else DefaultSettings
  }

  /** The list `user_inventory` yields: the stored one or a new empty one. */
  function InventoryOf(inventory: map<string, seq<Item>>, uid: string): seq<Item>
  {
    if uid in inventory then inventory[uid] else []
  }

  /** Every user's autodelete list is well formed. */
  predicate WellFormedSettings(settings: map<string, UserSettings>)
  {
    forall uid :: uid in settings ==> WellFormedList(settings[uid].autodelete)
  }

  class RollEngine {
    /** URLs already shown, shared by all users; rebuilt empty at start. */
    var seenUrls: set<string>
    /** `rng_settings`: user id to settings. */
    var settings: map<string, UserSettings>
    /** `inventory`: user id to that user's rolls, oldest first. */
    var inventory: map<string, seq<Item>>

    /** Start-up: the two maps as loaded from disk (empty when the files are
        missing or unreadable) and no URL served yet. */
    constructor (storedSettings: map<string, UserSettings>, storedInventory: map<string, seq<Item>>)
      ensures seenUrls == {}
      ensures settings == storedSettings && inventory == storedInventory
    {
      seenUrls := {};
      settings := storedSettings;
      inventory := storedInventory;
    }

    /** `user_settings(uid)`: `setdefault` with the default settings. */
    method UserSettingsFor(uid: string) returns (s: UserSettings)
      modifies this`settings
      ensures s == SettingsOf(old(settings), uid)
      ensures settings == old(settings)[uid := s]
      ensures WellFormedSettings(old(settings)) ==> WellFormedSettings(settings)
    {
      if uid !in settings {
        settings := settings[uid := DefaultSettings];
      }
      s := settings[uid];
    }

    /** `user_inventory(uid)`: `setdefault` with an empty list. */
    method UserInventory(uid: string) returns (inv: seq<Item>)
      modifies this`inventory
      ensures inv == InventoryOf(old(inventory), uid)
      ensures inventory == old(inventory)[uid := inv]
    {
      if uid !in inventory {
        inventory := inventory[uid := []];
      }
      inv := inventory[uid];
    }

    /** `fetch_femboy(rarity)`; `responses` are the endpoint's answers in the
        order it would give them, `consumed` how many of them were asked for. */
    method FetchFemboy(rarity: string, responses: seq<Response>) returns (r: Result<Content>, consumed: nat)
      requires MaxAttempts <= |responses|
      modifies this`seenUrls
      ensures Resolution(r, consumed, seenUrls) == Resolve(rarity, responses, old(seenUrls))
    {
      if rarity == LegendaryName {
        return Success(Astolfo), 0;
      }
      for i := 0 to MaxAttempts
        invariant seenUrls == old(seenUrls)
        invariant Attempts(responses, seenUrls, i) == Resolve(rarity, responses, old(seenUrls))
      {
        match responses[i]
        case HttpError =>
          return Failure(SourceError), i + 1;
        case Url(u) =>
          if u !in seenUrls {
            seenUrls := seenUrls + {u};
            return Success(Content(FemboyName, u)), i + 1;
          }
      }
      return Success(Astolfo), MaxAttempts;
    }

    /** `!roll` by `uid`: `draw` and `number` stand for the two random values,
        `responses` for the image endpoint. A fetch failure records nothing;
        otherwise one record is appended to the roller's inventory. */
    method Roll(uid: string, draw: real, number: int, responses: seq<Response>) returns (r: Result<Rolled>)
      requires 1 <= number <= MaxFlavour
      requires MaxAttempts <= |responses|
      modifies this
      ensures var rarity := ChosenName(RarityTable, draw);
              var res := Resolve(rarity, responses, old(seenUrls));
              seenUrls == res.seen &&
              (res.result.Failure? ==>
                 r == Failure(res.result.error) &&
                 inventory == old(inventory) && settings == old(settings)) &&
              (res.result.Success? ==>
                 var item := Item(res.result.value.name, rarity, number);
                 var s := SettingsOf(old(settings), uid);
                 r == Success(Rolled(item, res.result.value.url, s.autoclaim, rarity in s.autodelete)) &&
                 inventory == old(inventory)[uid := InventoryOf(old(inventory), uid) + [item]] &&
                 settings == old(settings)[uid := s])
      ensures r.Success? ==> 1 <= r.value.item.number <= MaxFlavour
      ensures forall u :: u != uid ==> (u in inventory <==> u in old(inventory))
      ensures forall u :: u != uid && u in old(inventory) ==> inventory[u] == old(inventory)[u]
      ensures WellFormedSettings(old(settings)) ==> WellFormedSettings(settings)
    {
      var rarity, num := ChooseRarity(draw, number);
      var fetched, _ := FetchFemboy(rarity, responses);
      if fetched.Failure? {
        return Failure(fetched.error);
      }
      var content := fetched.value;
      var item := Item(content.name, rarity, num);
      var inv := UserInventory(uid);
      inventory := inventory[uid := inv + [item]];
      var s := UserSettingsFor(uid);
      r := Success(Rolled(item, content.url, s.autoclaim, rarity in s.autodelete));
    }

    /** `!inventory` by `uid`: the per-key counts of the roller's records, in
        first-occurrence order; creates the empty inventory if there was none. */
    method InventoryCounts(uid: string) returns (keys: seq<Key>, counts: map<Key, nat>)
      modifies this`inventory
      ensures inventory == old(inventory)[uid := InventoryOf(old(inventory), uid)]
      ensures keys == FirstKeys(InventoryOf(old(inventory), uid))
      ensures forall k :: k in counts <==> k in keys
      ensures forall k :: k in counts ==> counts[k] == Occurrences(InventoryOf(old(inventory), uid), k)
    {
      var inv := UserInventory(uid);
      keys, counts := CountByKey(inv);
    }

    /** `!autoclaim arg` by `uid`: on/off in any case overwrites the flag; any
        other argument is refused. The user's settings exist afterwards. */
    method Autoclaim(uid: string, arg: string) returns (r: Result<bool>)
      modifies this`settings
      ensures var s := SettingsOf(old(settings), uid);
              match ParseSwitch(arg)
              case Some(on) =>
                r == Success(on) && settings == old(settings)[uid := s.(autoclaim := on)]
              case None =>
                r == Failure(InvalidSettingsArgument) && settings == old(settings)[uid := s]
      ensures WellFormedSettings(old(settings)) ==> WellFormedSettings(settings)
    {
      var s := UserSettingsFor(uid);
      match ParseSwitch(arg)
      case Some(on) =>
        settings := settings[uid := s.(autoclaim := on)];
        r := Success(on);
      case None =>
        r := Failure(InvalidSettingsArgument);
    }

    /** `!autodelete rarity` by `uid`: the title-cased name must be a tier name;
        it is then toggled in the user's list and the action is reported. */
    method Autodelete(uid: string, rarity: string) returns (r: Result<Action>)
      modifies this`settings
      ensures var s := SettingsOf(old(settings), uid);
              Text.Title(rarity) !in ValidNames() ==>
                r == Failure(InvalidRarity) && settings == old(settings)[uid := s]
      ensures var s := SettingsOf(old(settings), uid);
              var toggled := Toggle(s.autodelete, Text.Title(rarity));
              Text.Title(rarity) in ValidNames() ==>
                r == Success(toggled.1) && settings == old(settings)[uid := s.(autodelete := toggled.0)]
      ensures WellFormedSettings(old(settings)) ==> WellFormedSettings(settings)
    {
      var s := UserSettingsFor(uid);
      var name := Text.Title(rarity);
      if name !in ValidNames() {
        return Failure(InvalidRarity);
      }
      var toggled := Toggle(s.autodelete, name);
      if WellFormedSettings(settings) {
        assert uid in settings && settings[uid] == s;
        TogglePreservesWellFormed(s.autodelete, name);
        UpdateKeepsWellFormed(settings, uid, s.(autodelete := toggled.0));
      }
      settings := settings[uid := s.(autodelete := toggled.0)];
      r := Success(toggled.1);
    }
  }

  lemma UpdateKeepsWellFormed(settings: map<string, UserSettings>, uid: string, s: UserSettings)
    requires WellFormedSettings(settings) && WellFormedList(s.autodelete)
    ensures WellFormedSettings(settings[uid := s])
  {
  }

  /** A fresh engine: `!autodelete epic` then `!autodelete EPIC` enable and
      then disable Epic, leaving the list empty. */
  method AutodeleteTwiceScenario(uid: string) returns (first: Result<Action>, second: Result<Action>)
    ensures first == Success(Enabled) && second == Success(Disabled)
  {
    EpicInAnyCase();
    ToggleEpicTwiceExample();
    var engine := new RollEngine(map[], map[]);
    first := engine.Autodelete(uid, "epic");
    assert engine.settings[uid].autodelete == ["Epic"];
    second := engine.Autodelete(uid, "EPIC");
    assert engine.settings[uid].autodelete == [];
  }

  /** A fresh engine, one user, an endpoint that always answers the same URL:
      the first roll shows that URL and the second falls back to Astolfo. */
  method RepeatedUrlScenario(uid: string, url: string) returns (first: Result<Rolled>, second: Result<Rolled>)
    ensures first == Success(Rolled(Item(FemboyName, "Common", 7), url, false, false))
    ensures second == Success(Rolled(Item(Astolfo.name, "Common", 8), Astolfo.url, false, false))
  {
    var answers := [Url(url), Url(url), Url(url), Url(url), Url(url)];
    RarityTableIsDistribution();
    SelectedExactlyOnInterval(RarityTable, 0.5, 0);
    FirstDecisiveAnswer("Common", answers, {}, 0);
    AllSeenFallsBack("Common", answers, {url});
    var engine := new RollEngine(map[], map[]);
    first := engine.Roll(uid, 0.5, 7, answers);
    second := engine.Roll(uid, 0.5, 8, answers);
  }

  /** Two rolls by one user on a fresh engine: the user's inventory holds the
      rolled items of the successful ones, in the order they were rolled. */
  method RollsRecordedInOrder(uid: string, draw1: real, number1: int, answers1: seq<Response>,
                              draw2: real, number2: int, answers2: seq<Response>)
    returns (first: Result<Rolled>, second: Result<Rolled>, recorded: seq<Item>)
    requires 1 <= number1 <= MaxFlavour && 1 <= number2 <= MaxFlavour
    requires MaxAttempts <= |answers1| && MaxAttempts <= |answers2|
    ensures recorded == (if first.Success? then [first.value.item] else []) +
                        (if second.Success? then [second.value.item] else [])
  {
    var engine := new RollEngine(map[], map[]);
    first := engine.Roll(uid, draw1, number1, answers1);
    var afterFirst := InventoryOf(engine.inventory, uid);
    assert afterFirst == if first.Success? then [first.value.item] else [];
    second := engine.Roll(uid, draw2, number2, answers2);
    recorded := InventoryOf(engine.inventory, uid);
  }
}
