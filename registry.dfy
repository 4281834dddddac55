/** The device token registry: the in-memory list `deviceTokens`, loaded
    once from `tokens.json` and rewritten to it after every insertion by
    `/save-token`. */
module Registry {
  import opened JsValues

  /** `{ expoPushToken, fcmToken }`; an absent field is `Undefined`. */
  datatype DeviceToken = DeviceToken(expoPushToken: JsValue, fcmToken: JsValue)

  /** `tokens.json` at start-up: absent, unreadable or not JSON, or holding
      a saved list. */
  datatype TokenFile = Missing | Unreadable | Saved(tokens: seq<DeviceToken>)

  /** The answer of `/save-token`: 400 "No body received", 400 "No token
      received", or `{ success: true }` (whether or not the token was new). */
  datatype Registration = NoBody | NoToken | Accepted

  /** `loadTokens()`: the saved list, or nothing when the file is absent or
      cannot be parsed. */
  function Loaded(file: TokenFile): seq<DeviceToken> {
    if file.Saved? then file.tokens else []
  }

  /** The answer to a request whose (possibly absent) body is `body`. */
  function Outcome(body: Option<DeviceToken>): Registration {
    if body.None? then NoBody
    else if !Truthy(body.value.expoPushToken) && !Truthy(body.value.fcmToken) then NoToken
    else Accepted
  }

  /** The `find` callback: `t.expoPushToken === expoPushToken ||
      t.fcmToken === fcmToken`, where `undefined === undefined` holds. */
  predicate Collides(t: DeviceToken, body: DeviceToken) {
    t.expoPushToken == body.expoPushToken || t.fcmToken == body.fcmToken
  }

  /** Some stored entry collides with `body`. */
  predicate Known(tokens: seq<DeviceToken>, body: DeviceToken) {
    exists i | 0 <= i < |tokens| :: Collides(tokens[i], body)
  }

  /** The list after one request: the body is appended when it is accepted
      and collides with no stored entry. */
  function AfterRegister(tokens: seq<DeviceToken>, body: Option<DeviceToken>): seq<DeviceToken> {
    if Outcome(body) == Accepted && !Known(tokens, body.value) then tokens + [body.value] else tokens
  }

  /** The list after a series of requests, in order. */
  function RegisterAll(tokens: seq<DeviceToken>, bodies: seq<Option<DeviceToken>>): seq<DeviceToken> {
    if bodies == [] then tokens
    else AfterRegister(RegisterAll(tokens, bodies[..|bodies| - 1]), bodies[|bodies| - 1])
  }

  /** `deviceTokens.find(...)` with the duplicate test `same`: the index of
      the first stored entry that `same` relates to the incoming token. */
  method FindFirst(tokens: seq<DeviceToken>, body: DeviceToken, same: (DeviceToken, DeviceToken) -> bool)
    returns (found: Option<nat>)
    ensures found.None? <==> forall i | 0 <= i < |tokens| :: !same(tokens[i], body)
    ensures found.Some? ==> found.value < |tokens| && same(tokens[found.value], body)
    ensures found.Some? ==> forall i | 0 <= i < found.value :: !same(tokens[i], body)
  {
    var i := 0;
    while i < |tokens|
      invariant 0 <= i <= |tokens|
      invariant forall j | 0 <= j < i :: !same(tokens[j], body)
    {
      if same(tokens[i], body) {
        return Some(i);
      }
      i := i + 1;
    }
    return None;
  }

  /** One request grows the list by at most one entry, at the end, and
      only an accepted token no entry collides with is added. */
  lemma RegisterGrowsByAtMostOne(tokens: seq<DeviceToken>, body: Option<DeviceToken>)
    ensures var r := AfterRegister(tokens, body);
      && |tokens| <= |r| <= |tokens| + 1
      && r[..|tokens|] == tokens
      && (|r| == |tokens| + 1 <==> Outcome(body) == Accepted && !Known(tokens, body.value))
      && (|r| == |tokens| + 1 ==> r[|tokens|] == body.value)
  {
  }

  /** Sending the same request twice inserts at most once. */
  lemma RegisterTwiceOnce(tokens: seq<DeviceToken>, body: Option<DeviceToken>)
    ensures AfterRegister(AfterRegister(tokens, body), body) == AfterRegister(tokens, body)
  {
    var r := AfterRegister(tokens, body);
    if |r| > |tokens| {
      assert Collides(r[|tokens|], body.value);
    }
  }

  /** No two entries collide: they share neither an `expoPushToken` nor an
      `fcmToken` value (absent counting as a value). */
  predicate Distinct(tokens: seq<DeviceToken>) {
    forall i, j | 0 <= i < j < |tokens| :: !Collides(tokens[i], tokens[j])
  }

  /** Registration keeps the entries distinct. */
  lemma RegisterKeepsDistinct(tokens: seq<DeviceToken>, body: Option<DeviceToken>)
    requires Distinct(tokens)
    ensures Distinct(AfterRegister(tokens, body))
  {
    var r := AfterRegister(tokens, body);
    if |r| > |tokens| {
      forall i, j | 0 <= i < j < |r| ensures !Collides(r[i], r[j]) {
        if j == |tokens| {
          assert !Collides(tokens[i], body.value);
        } else {
          assert r[i] == tokens[i] && r[j] == tokens[j];
        }
      }
    }
  }

  /** So does any series of requests. */
  lemma {:induction false} RegisterAllKeepsDistinct(tokens: seq<DeviceToken>, bodies: seq<Option<DeviceToken>>)
    requires Distinct(tokens)
    ensures Distinct(RegisterAll(tokens, bodies))
  {
    if bodies != [] {
      RegisterAllKeepsDistinct(tokens, bodies[..|bodies| - 1]);
      RegisterKeepsDistinct(RegisterAll(tokens, bodies[..|bodies| - 1]), bodies[|bodies| - 1]);
    }
  }

  /** Every request carries a token object. */
  predicate AllPresent(bodies: seq<Option<DeviceToken>>) {
    forall i | 0 <= i < |bodies| :: bodies[i].Some?
  }

  /** The tokens the requests carry, in order. */
  function Bodies(bodies: seq<Option<DeviceToken>>): (ts: seq<DeviceToken>)
    requires AllPresent(bodies)
    ensures |ts| == |bodies|
  {
    seq(|bodies|, i requires 0 <= i < |bodies| => bodies[i].value)
  }

  /** Requests that all carry the same non-empty `expoPushToken` leave one
      entry, the first one's, on a fresh registry. */
  lemma {:induction false} SharedExpoLeavesOne(bodies: seq<Option<DeviceToken>>, expo: JsValue)
    requires |bodies| > 0 && Truthy(expo)
    requires forall i | 0 <= i < |bodies| :: bodies[i].Some? && bodies[i].value.expoPushToken == expo
    ensures RegisterAll([], bodies) == [bodies[0].value]
  {
    var init := bodies[..|bodies| - 1];
    if init == [] {
      assert RegisterAll([], init) == [];
    } else {
      SharedExpoLeavesOne(init, expo);
      assert init[0] == bodies[0];
      assert Collides([bodies[0].value][0], bodies[|bodies| - 1].value);
    }
  }

  /** Accepted requests whose tokens pairwise collide on neither field are
      all kept, in order, on a fresh registry. */
  lemma {:induction false} NonCollidingAllKept(bodies: seq<Option<DeviceToken>>)
    requires AllPresent(bodies)
    requires forall i | 0 <= i < |bodies| :: Outcome(bodies[i]) == Accepted
    requires forall i, j | 0 <= i < j < |bodies| :: !Collides(bodies[i].value, bodies[j].value)
    ensures RegisterAll([], bodies) == Bodies(bodies)
  {
    if bodies != [] {
      var init := bodies[..|bodies| - 1];
      NonCollidingAllKept(init);
      assert Bodies(bodies) == Bodies(init) + [bodies[|bodies| - 1].value];
      forall i | 0 <= i < |init| ensures !Collides(Bodies(init)[i], bodies[|bodies| - 1].value) {
        assert Bodies(init)[i] == bodies[i].value;
      }
    }
  }

  /** As written, two devices that register only an Expo token collide,
      because their absent `fcmToken`s are both `undefined`: the second one is
      never stored. */
  lemma AbsentFcmCollides()
    ensures var a, b := DeviceToken(Str("ExponentPushToken[a]"), Undefined),
                        DeviceToken(Str("ExponentPushToken[b]"), Undefined);
      a != b && RegisterAll([], [Some(a), Some(b)]) == [a]
  {
    var a, b := DeviceToken(Str("ExponentPushToken[a]"), Undefined),
                DeviceToken(Str("ExponentPushToken[b]"), Undefined);
    assert [Some(a), Some(b)][..1] == [Some(a)];
    assert [Some(a)][..0] == [];
    assert RegisterAll([], [Some(a)]) == AfterRegister([], Some(a)) == [a];
    assert Collides([a][0], b);
    assert AfterRegister([a], Some(b)) == [a];
  }

  /** The evident intent: two tokens belong to the same device when they
      share a non-empty `expoPushToken` or a non-empty `fcmToken`. */
  predicate SameDevice(t: DeviceToken, body: DeviceToken) {
    || (Truthy(body.expoPushToken) && t.expoPushToken == body.expoPushToken)
    || (Truthy(body.fcmToken) && t.fcmToken == body.fcmToken)
  }

  predicate KnownDevice(tokens: seq<DeviceToken>, body: DeviceToken) {
    exists i | 0 <= i < |tokens| :: SameDevice(tokens[i], body)
  }

  /** Registration with the intended duplicate test. */
  function AfterRegisterIntended(tokens: seq<DeviceToken>, body: Option<DeviceToken>): seq<DeviceToken> {
    if Outcome(body) == Accepted && !KnownDevice(tokens, body.value) then tokens + [body.value] else tokens
  }

  function RegisterAllIntended(tokens: seq<DeviceToken>, bodies: seq<Option<DeviceToken>>): seq<DeviceToken> {
    if bodies == [] then tokens
    else AfterRegisterIntended(RegisterAllIntended(tokens, bodies[..|bodies| - 1]), bodies[|bodies| - 1])
  }

  /** With the intended test, accepted requests for pairwise different
      devices are all kept, in order, on a fresh registry; in particular the
      two Expo-only devices above both are. */
  lemma {:induction false} IntendedKeepsDistinctDevices(bodies: seq<Option<DeviceToken>>)
    requires AllPresent(bodies)
    requires forall i | 0 <= i < |bodies| :: Outcome(bodies[i]) == Accepted
    requires forall i, j | 0 <= i < j < |bodies| :: !SameDevice(bodies[i].value, bodies[j].value)
    ensures RegisterAllIntended([], bodies) == Bodies(bodies)
  {
    if bodies != [] {
      var init := bodies[..|bodies| - 1];
      IntendedKeepsDistinctDevices(init);
      assert Bodies(bodies) == Bodies(init) + [bodies[|bodies| - 1].value];
      forall i | 0 <= i < |init| ensures !SameDevice(Bodies(init)[i], bodies[|bodies| - 1].value) {
        assert Bodies(init)[i] == bodies[i].value;
      }
    }
  }

  /** No stored entry is the same device as a later one. */
  predicate DistinctDevices(tokens: seq<DeviceToken>) {
    forall i, j | 0 <= i < j < |tokens| :: !SameDevice(tokens[i], tokens[j])
  }

  /** Registration with the intended test keeps the devices distinct. */
  lemma IntendedKeepsDistinct(tokens: seq<DeviceToken>, body: Option<DeviceToken>)
    requires DistinctDevices(tokens)
    ensures DistinctDevices(AfterRegisterIntended(tokens, body))
  {
    var r := AfterRegisterIntended(tokens, body);
    if |r| > |tokens| {
      forall i, j | 0 <= i < j < |r| ensures !SameDevice(r[i], r[j]) {
        if j == |tokens| {
          assert !SameDevice(tokens[i], body.value);
        } else {
          assert r[i] == tokens[i] && r[j] == tokens[j];
        }
      }
    }
  }

  /** The intended test still inserts a repeated request once. */
  lemma IntendedTwiceOnce(tokens: seq<DeviceToken>, body: Option<DeviceToken>)
    ensures AfterRegisterIntended(AfterRegisterIntended(tokens, body), body) == AfterRegisterIntended(tokens, body)
  {
    var r := AfterRegisterIntended(tokens, body);
    if |r| > |tokens| {
      assert SameDevice(r[|tokens|], body.value);
    }
  }

  /** Both tests agree when every stored and incoming field is non-empty. */
  lemma IntendedAgreesWhenComplete(tokens: seq<DeviceToken>, body: Option<DeviceToken>)
    requires forall i | 0 <= i < |tokens| :: Truthy(tokens[i].expoPushToken) && Truthy(tokens[i].fcmToken)
    requires body.Some? ==> Truthy(body.value.expoPushToken) && Truthy(body.value.fcmToken)
    ensures AfterRegisterIntended(tokens, body) == AfterRegister(tokens, body)
  {
    if body.Some? {
      assert forall i | 0 <= i < |tokens| :: SameDevice(tokens[i], body.value) == Collides(tokens[i], body.value);
    }
  }

  /** The registry: the list and the file that mirrors it. */
  class TokenRegistry {
    var tokens: seq<DeviceToken>
    var file: TokenFile

    /** Start-up: `loadTokens()`. */
    constructor Load(file: TokenFile)
      ensures tokens == Loaded(file) && this.file == file
    {
      tokens := Loaded(file);
      this.file := file;
    }

    /** `/save-token`: answers as `Outcome` says, appends the token when no
        stored entry collides with it under `===` and then rewrites the file
        with the whole list. */
    method Register(body: Option<DeviceToken>) returns (outcome: Registration)
      modifies this
      ensures outcome == Outcome(body)
      ensures tokens == AfterRegister(old(tokens), body)
      ensures file == if |tokens| > |old(tokens)| then Saved(tokens) else old(file)
    {
      if body.None? {
        return NoBody;
      }
      var token := body.value;
      if !Truthy(token.expoPushToken) && !Truthy(token.fcmToken) {
        return NoToken;
      }
      var existing := FindFirst(tokens, token, Collides);
      if existing.None? {
        tokens := tokens + [token];
        file := Saved(tokens);
      }
      return Accepted;
    }

    /** `/save-token` with the corrected duplicate test: the token is
        appended when no stored entry is the same device. */
    method RegisterIntended(body: Option<DeviceToken>) returns (outcome: Registration)
      modifies this
      ensures outcome == Outcome(body)
      ensures tokens == AfterRegisterIntended(old(tokens), body)
      ensures file == if |tokens| > |old(tokens)| then Saved(tokens) else old(file)
    {
      if body.None? {
        return NoBody;
      }
      var token := body.value;
      if !Truthy(token.expoPushToken) && !Truthy(token.fcmToken) {
        return NoToken;
      }
      var existing := FindFirst(tokens, token, SameDevice);
      if existing.None? {
        tokens := tokens + [token];
        file := Saved(tokens);
      }
      return Accepted;
    }
  }
}
