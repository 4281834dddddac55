/** Push notifications: `/test-notification` and the `/order-created`
    webhook build one message per registered Expo token, split them into
    batches and submit the batches one after another. */
module Notifications {
  import opened JsValues
  import opened Orders
  import opened Sequences
  import opened Registry

  /** The largest number of messages in one submission. */
  const ChunkLimit: nat := 100

  /** The sound every message asks for. */
  const DefaultSound: string := "default"

  /** What a message says: its title, body and optional `data.orderId`. */
  datatype Notice = Notice(title: string, body: string, orderId: Option<JsValue>)

  /** A push message `{ to, title, body, sound, data? }`. */
  datatype Message = Message(to: JsValue, title: string, body: string, sound: string, orderId: Option<JsValue>)

  /** The reply of a handler: `{ success: true }`, a 500 error, or a plain
      200 "OK". */
  datatype Reply = Success | ServerError | PlainOk

  /** The webhook body as far as it is read: `id`, `total` and `billing`. */
  datatype Payload = Payload(id: JsValue, total: JsValue, billing: Option<Billing>)

  /** The `/test-notification` text. */
  const TestNotice: Notice := Notice("Test Notification", "Your WooCommerce app is working!", None)

  /** The `/order-created` text; reading `order.billing.first_name` throws
      when `billing` is absent or null. */
  function OrderNotice(order: Payload): Completion<Notice> {
    if order.billing.None? then Throws
    else Normal(Notice("\U{1F6D2} New Order #" + Render(order.id),
                       "Amount \U{20B9}" + Render(order.total) + " from " + Render(order.billing.value.firstName),
                       Some(order.id)))
  }

  /** A registry entry a message goes to: its `expoPushToken` is truthy. */
  predicate Reachable(t: DeviceToken) {
    Truthy(t.expoPushToken)
  }

  /** The entry's message. */
  function Compose(t: DeviceToken, n: Notice): Message {
    Message(t.expoPushToken, n.title, n.body, DefaultSound, n.orderId)
  }

  /** One message per entry of `ts`, in order. */
  function Composed(ts: seq<DeviceToken>, n: Notice): (ms: seq<Message>)
    ensures |ms| == |ts|
  {
    seq(|ts|, i requires 0 <= i < |ts| => Compose(ts[i], n))
  }

  /** The messages the `forEach` over the registry builds. */
  function Messages(tokens: seq<DeviceToken>, n: Notice): seq<Message> {
    Composed(Filter(tokens, Reachable), n)
  }

  /** The `forEach` over `deviceTokens`: a message for each entry with an
      Expo token, in registry order. The notice is evaluated for each such
      entry, so it throws at the first one when it throws at all. */
  method BuildMessages(tokens: seq<DeviceToken>, notice: Completion<Notice>) returns (r: Completion<seq<Message>>)
    ensures r == if notice.Throws? && Filter(tokens, Reachable) != [] then Throws
                 else if notice.Throws? then Normal([])
                 else Normal(Messages(tokens, notice.value))
  {
    var messages: seq<Message> := [];
    var i := 0;
    while i < |tokens|
      invariant 0 <= i <= |tokens|
      invariant notice.Throws? ==> Filter(tokens[..i], Reachable) == []
      invariant messages == if notice.Throws? then [] else Messages(tokens[..i], notice.value)
    {
      var t := tokens[i];
      assert tokens[..i + 1][..i] == tokens[..i];
      assert tokens[..i + 1][i] == t;
      if Reachable(t) {
        if notice.Throws? {
          assert Filter(tokens[..i + 1], Reachable) != [];
          FilterAppend(tokens[..i + 1], tokens[i + 1..], Reachable);
          assert tokens == tokens[..i + 1] + tokens[i + 1..];
          return Throws;
        }
        messages := messages + [Compose(t, notice.value)];
      }
      i := i + 1;
    }
    assert tokens[..i] == tokens;
    return if notice.Throws? then Normal([]) else Normal(messages);
  }

  /** Every message carries the notice's text and the default sound and goes
      to an Expo token of the registry, and every entry with an Expo token
      has its message among them. */
  lemma MessagesReachEveryExpoToken(tokens: seq<DeviceToken>, n: Notice)
    ensures var ms := Messages(tokens, n);
      && (forall m | m in ms :: Truthy(m.to) && m.sound == DefaultSound && m.title == n.title && m.body == n.body)
      && (forall m | m in ms :: exists i | 0 <= i < |tokens| :: tokens[i].expoPushToken == m.to)
      && (forall i | 0 <= i < |tokens| && Reachable(tokens[i]) :: Compose(tokens[i], n) in ms)
  {
    var rs := Filter(tokens, Reachable);
    var ms := Messages(tokens, n);
    FilterMembers(tokens, Reachable);
    forall m | m in ms
      ensures Truthy(m.to) && exists i | 0 <= i < |tokens| :: tokens[i].expoPushToken == m.to
    {
      var k :| 0 <= k < |ms| && ms[k] == m;
      assert rs[k] in rs;
      var i :| 0 <= i < |tokens| && tokens[i] == rs[k];
    }
    forall i | 0 <= i < |tokens| && Reachable(tokens[i])
      ensures Compose(tokens[i], n) in ms
    {
      assert tokens[i] in rs;
      var k :| 0 <= k < |rs| && rs[k] == tokens[i];
      assert ms[k] == Compose(tokens[i], n);
    }
  }

  /** An entry without an Expo token (an FCM-only device) gets no message
      and changes nobody else's. */
  lemma FcmOnlyUnreachable(a: seq<DeviceToken>, t: DeviceToken, b: seq<DeviceToken>, n: Notice)
    requires !Truthy(t.expoPushToken)
    ensures Messages(a + [t] + b, n) == Messages(a + b, n)
  {
    FilterAppend(a + [t], b, Reachable);
    FilterAppend(a, [t], Reachable);
    FilterAppend(a, b, Reachable);
    assert [t][..0] == [];
  }

  /** `expo.chunkPushNotifications(messages)`, taken to cut the messages, in
      order, into consecutive batches of `ChunkLimit`, the last one shorter. */
  function Chunks(ms: seq<Message>): seq<seq<Message>>
    decreases |ms|
  {
    if ms == [] then []
    else if |ms| <= ChunkLimit then [ms]
    else [ms[..ChunkLimit]] + Chunks(ms[ChunkLimit..])
  }

  /** Concatenation of batches. */
  function Flatten(bs: seq<seq<Message>>): seq<Message> {
    if bs == [] then [] else bs[0] + Flatten(bs[1..])
  }

  /** The batches hold every message once, in order; none is empty or over
      the limit; there are as many as the limit's ceiling division gives. */
  lemma {:induction false} ChunksPartition(ms: seq<Message>)
    ensures Flatten(Chunks(ms)) == ms
    ensures forall i | 0 <= i < |Chunks(ms)| :: 0 < |Chunks(ms)[i]| <= ChunkLimit
    ensures |Chunks(ms)| == (|ms| + ChunkLimit - 1) / ChunkLimit
    decreases |ms|
  {
    if |ms| > ChunkLimit {
      var rest := ms[ChunkLimit..];
      ChunksPartition(rest);
      var cs := Chunks(ms);
      assert cs[1..] == Chunks(rest);
      assert ms == ms[..ChunkLimit] + rest;
      forall i | 0 <= i < |cs| ensures 0 < |cs[i]| <= ChunkLimit {
        if i > 0 {
          assert cs[i] == Chunks(rest)[i - 1];
        }
      }
    }
  }

  /** The `for ... of chunks` loop of `await expo.sendPushNotificationsAsync`:
      batches go out one after another; `failAt` is the position of the
      first call that rejects, if any, and that rejection leaves the loop,
      so the batches after it are never submitted. */
  method Submit(chunks: seq<seq<Message>>, failAt: Option<nat>) returns (sent: seq<seq<Message>>, failed: bool)
    ensures failed <==> failAt.Some? && failAt.value < |chunks|
    ensures sent == if failed then chunks[..failAt.value + 1] else chunks
  {
    sent := [];
    var i := 0;
    while i < |chunks|
      invariant 0 <= i <= |chunks|
      invariant sent == chunks[..i]
      invariant !(failAt.Some? && failAt.value < i)
    {
      sent := sent + [chunks[i]];
      if failAt == Some(i) {
        return sent, true;
      }
      i := i + 1;
    }
    assert chunks[..i] == chunks;
    return sent, false;
  }

  /** `/test-notification`: the test message goes to every Expo token; the
      reply is a 500 error when a submission rejects. */
  method TestNotification(tokens: seq<DeviceToken>, failAt: Option<nat>) returns (reply: Reply, sent: seq<seq<Message>>)
    ensures var chunks := Chunks(Messages(tokens, TestNotice));
      && (reply == ServerError <==> failAt.Some? && failAt.value < |chunks|)
      && reply != PlainOk
      && sent == if reply == ServerError then chunks[..failAt.value + 1] else chunks
  {
    var messages := BuildMessages(tokens, Normal(TestNotice));
    var failed;
    sent, failed := Submit(Chunks(messages.value), failAt);
    reply := if failed then ServerError else Success;
  }

  /** `/order-created`: a payload that is absent or has a falsy `id` is
      acknowledged with nothing sent; otherwise the new-order message goes to
      every Expo token. A throw while building (no billing, and some
      recipient) or a rejected submission is caught and acknowledged as well. */
  method OrderCreated(payload: Option<Payload>, tokens: seq<DeviceToken>, failAt: Option<nat>)
    returns (reply: Reply, sent: seq<seq<Message>>)
    ensures payload.None? || !Truthy(payload.value.id) ==> reply == PlainOk && sent == []
    ensures payload.Some? && Truthy(payload.value.id) ==>
      var notice := OrderNotice(payload.value);
      if notice.Throws? && Filter(tokens, Reachable) != [] then reply == PlainOk && sent == []
      else
        var chunks := Chunks(if notice.Throws? then [] else Messages(tokens, notice.value));
        && (reply == PlainOk <==> failAt.Some? && failAt.value < |chunks|)
        && reply != ServerError
        && sent == if reply == PlainOk then chunks[..failAt.value + 1] else chunks
  {
    if payload.None? || !Truthy(payload.value.id) {
      return PlainOk, [];
    }
    var messages := BuildMessages(tokens, OrderNotice(payload.value));
    if messages.Throws? {
      return PlainOk, [];
    }
    var failed;
    sent, failed := Submit(Chunks(messages.value), failAt);
    reply := if failed then PlainOk else Success;
  }

  /** 1200 registered Expo tokens make 1200 messages in 12 batches. */
  lemma TwelveBatches(tokens: seq<DeviceToken>, n: Notice)
    requires |tokens| == 1200
    requires forall i | 0 <= i < |tokens| :: Reachable(tokens[i])
    ensures |Messages(tokens, n)| == 1200
    ensures |Chunks(Messages(tokens, n))| == 12
  {
    FilterKeepsAll(tokens, Reachable);
    ChunksPartition(Messages(tokens, n));
  }
}
