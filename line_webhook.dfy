/**
 * The LINE messaging webhook: a signed request carrying a list of events;
 * each user message with a reply token is answered, text by keyword and
 * anything else with a fixed notice. The HMAC digest is an input, and the
 * replies sent are collected in an outbox.
 */
module LineWebhook {
  import opened Wrappers
  import Text
  import Seqs

  /** The message an event carries: its type and, for text, the text. */
  datatype EventMessage = EventMessage(kind: string, text: Option<string>)

  /** One webhook event, as far as the handler reads it. */
  datatype Event = Event(kind: string, userId: Option<string>, message: Option<EventMessage>, replyToken: Option<string>)

  /** Which canned reply goes out. */
  datatype ReplyKind = MainMenu | PointsInfo | TellerMenu | BalanceInfo | TextOnly

  datatype Reply = Reply(replyToken: string, kind: ReplyKind)

  datatype Response = Response(status: nat, message: string)

  /** The demo balance the balance reply quotes for everyone. */
  const DemoBalance: nat := 1200

  /** The secret in use: the messaging channel's, else the login channel's. */
  function ChannelSecret(messagingSecret: Option<string>, channelSecret: Option<string>): (s: Option<string>)
    ensures Truthy(s) <==> Truthy(messagingSecret) || Truthy(channelSecret)
    ensures Truthy(messagingSecret) ==> s == messagingSecret
    ensures !Truthy(messagingSecret) ==> s == channelSecret
  {
    OrElse(messagingSecret, channelSecret)
  }

  /**
   * `verifySignature`: no secret or no header fails; otherwise the header
   * must be `SHA256=` followed by the digest of the body under the secret,
   * which `hmac` computes.
   */
  predicate VerifySignature(body: string, signature: Option<string>, secret: Option<string>,
                            hmac: (string, string) -> string)
  {
    Truthy(secret) && Truthy(signature) && signature.value == "SHA256=" + hmac(secret.value, body)
  }

  /** A signature that passes names its digest after a fixed prefix, so it cannot pass under two digests. */
  lemma SignatureNamesDigest(body: string, signature: Option<string>, secret: Option<string>,
                             hmac: (string, string) -> string, hmac2: (string, string) -> string)
    requires VerifySignature(body, signature, secret, hmac) && VerifySignature(body, signature, secret, hmac2)
    ensures hmac(secret.value, body) == hmac2(secret.value, body)
    ensures |signature.value| == 7 + |hmac(secret.value, body)| && signature.value[..7] == "SHA256="
  {
    var d1 := hmac(secret.value, body);
    var d2 := hmac2(secret.value, body);
    assert d1 == ("SHA256=" + d1)[7..];
    assert d2 == ("SHA256=" + d2)[7..];
  }

  predicate MenuWords(t: string)
  {
    Text.Contains(t, "メニュー") || Text.Contains(t, "ヘルプ") || t == "menu"
  }

  predicate PointWords(t: string)
  {
    Text.Contains(t, "ポイント") || Text.Contains(t, "購入")
  }

  predicate FortuneWords(t: string)
  {
    Text.Contains(t, "占い") || Text.Contains(t, "相談")
  }

  predicate BalanceWords(t: string)
  {
    Text.Contains(t, "残高") || Text.Contains(t, "balance")
  }

  /** The keyword routing of a lower-cased text; the first group that matches wins. */
  function Route(t: string): (k: ReplyKind)
    ensures k != TextOnly
    ensures k == MainMenu <==> MenuWords(t) || (!PointWords(t) && !FortuneWords(t) && !BalanceWords(t))
    ensures k == PointsInfo <==> !MenuWords(t) && PointWords(t)
    ensures k == TellerMenu <==> !MenuWords(t) && !PointWords(t) && FortuneWords(t)
    ensures k == BalanceInfo <==> !MenuWords(t) && !PointWords(t) && !FortuneWords(t) && BalanceWords(t)
  {
    if MenuWords(t) then MainMenu
    else if PointWords(t) then PointsInfo
    else if FortuneWords(t) then TellerMenu
    else if BalanceWords(t) then BalanceInfo
    else MainMenu
  }

  /** The text the router sees: lower-cased, '' when there is none. */
  function MessageText(m: EventMessage): string
  {
    if m.text.Some? then Text.ToLower(m.text.value) else ""
  }

  /** Lower-casing after upper-casing is lower-casing. */
  lemma LowerOfUpper(s: string)
    ensures Text.ToLower(Text.ToUpper(s)) == Text.ToLower(s)
  {
    var a := Text.ToLower(Text.ToUpper(s));
    var b := Text.ToLower(s);
    forall i | 0 <= i < |s| ensures a[i] == b[i] {
      assert a[i] == Text.LowerChar(Text.UpperChar(s[i]));
    }
  }

  /** The routing ignores the case of ASCII letters: 'MENU', 'Balance' and 'balance' route alike. */
  lemma RouteIgnoresCase(s: string)
    ensures MessageText(EventMessage("text", Some(Text.ToUpper(s)))) == MessageText(EventMessage("text", Some(s)))
    ensures Route(MessageText(EventMessage("text", Some(Text.ToUpper(s))))) == Route(MessageText(EventMessage("text", Some(s))))
  {
    LowerOfUpper(s);
  }

  /** A text asking for both the points and the balance gets the points reply: the earlier group wins. */
  lemma PointsBeforeBalance(t: string)
    requires Text.Contains(t, "ポイント") && Text.Contains(t, "残高") && !MenuWords(t)
    ensures Route(t) == PointsInfo
  {
  }

  /** `handleLineEvent`: the reply an event gets, if any. */
  function HandleEvent(e: Event): (r: Option<Reply>)
    ensures r.None? <==> e.kind != "message" || !Truthy(e.userId) || !Truthy(e.replyToken)
    ensures r.Some? ==> r.value.replyToken == e.replyToken.value
    ensures r.Some? && e.message.Some? && e.message.value.kind == "text" ==>
              r.value.kind == Route(MessageText(e.message.value))
    ensures r.Some? && !(e.message.Some? && e.message.value.kind == "text") ==> r.value.kind == TextOnly
  {
    if e.kind != "message" || !Truthy(e.userId) || !Truthy(e.replyToken) then None
    else if e.message.Some? && e.message.value.kind == "text" then
      Some(Reply(e.replyToken.value, Route(MessageText(e.message.value))))
    else Some(Reply(e.replyToken.value, TextOnly))
  }

  /** The replies a list of events produces, in event order. */
  function Replies(events: seq<Event>): seq<Reply>
  {
    if events == [] then [] else ReplyTo(events[0]) + Replies(events[1..])
  }

  /** The reply one event gets, as a list of zero or one. */
  function ReplyTo(e: Event): seq<Reply>
  {
    if HandleEvent(e).Some? then [HandleEvent(e).value] else []
  }

  predicate Answered(e: Event)
  {
    HandleEvent(e).Some?
  }

  /** Handling a batch is handling its parts one after the other. */
  lemma {:induction false} RepliesConcat(a: seq<Event>, b: seq<Event>)
    ensures Replies(a + b) == Replies(a) + Replies(b)
  {
    if a == [] {
      assert a + b == b;
    } else {
      var ab := a + b;
      assert ab[0] == a[0];
      assert ab[1..] == a[1..] + b;
      RepliesConcat(a[1..], b);
      var x, y, z := ReplyTo(a[0]), Replies(a[1..]), Replies(b);
      assert Replies(ab) == x + (y + z);
      assert x + (y + z) == (x + y) + z;
    }
  }

  /** There are as many replies as answered events. */
  lemma {:induction false} RepliesCount(events: seq<Event>)
    ensures |Replies(events)| == Seqs.Count(events, Answered)
  {
    if events != [] {
      RepliesCount(events[1..]);
    }
  }

  /** Every reply answers an event of the batch. */
  lemma {:induction false} RepliesAnswerEvents(events: seq<Event>, r: Reply)
    requires r in Replies(events)
    ensures exists i :: 0 <= i < |events| && HandleEvent(events[i]) == Some(r)
  {
    var h := HandleEvent(events[0]);
    if h == Some(r) {
      assert HandleEvent(events[0]) == Some(r);
    } else {
      assert r in Replies(events[1..]);
      RepliesAnswerEvents(events[1..], r);
      var j :| 0 <= j < |events[1..]| && HandleEvent(events[1..][j]) == Some(r);
      assert events[j + 1] == events[1..][j];
    }
  }

  /** Every answered event's reply is among the replies. */
  lemma {:induction false} AnsweredEventsReplied(events: seq<Event>, i: nat)
    requires i < |events| && Answered(events[i])
    ensures HandleEvent(events[i]).value in Replies(events)
  {
    if i > 0 {
      assert events[i] == events[1..][i - 1];
      AnsweredEventsReplied(events[1..], i - 1);
    }
  }

  /**
   * One reply per answered event: every reply answers an event of the
   * batch, every answered event's reply is sent, and there are as many
   * replies as answered events.
   */
  lemma RepliesOnePerAnswered(events: seq<Event>)
    ensures |Replies(events)| == Seqs.Count(events, Answered)
    ensures forall r :: r in Replies(events) ==> exists i :: 0 <= i < |events| && HandleEvent(events[i]) == Some(r)
    ensures forall i :: 0 <= i < |events| && Answered(events[i]) ==> HandleEvent(events[i]).value in Replies(events)
  {
    RepliesCount(events);
    forall r | r in Replies(events) ensures exists i :: 0 <= i < |events| && HandleEvent(events[i]) == Some(r) {
      RepliesAnswerEvents(events, r);
    }
    forall i | 0 <= i < |events| && Answered(events[i]) ensures HandleEvent(events[i]).value in Replies(events) {
      AnsweredEventsReplied(events, i);
    }
  }

  /**
   * `POST`: a request whose signature fails gets 401 and nothing is
   * handled; a body that is not JSON (`events` is None) gets 500; otherwise
   * every event is handled in order and the answer is 200.
   */
  method Post(body: string, signature: Option<string>, messagingSecret: Option<string>, channelSecret: Option<string>,
              hmac: (string, string) -> string, events: Option<seq<Event>>)
    returns (response: Response, outbox: seq<Reply>)
    ensures !VerifySignature(body, signature, ChannelSecret(messagingSecret, channelSecret), hmac) ==>
              response == Response(401, "Unauthorized") && outbox == []
    ensures VerifySignature(body, signature, ChannelSecret(messagingSecret, channelSecret), hmac) && events.None? ==>
              response == Response(500, "Internal Server Error") && outbox == []
    ensures VerifySignature(body, signature, ChannelSecret(messagingSecret, channelSecret), hmac) && events.Some? ==>
              response == Response(200, "OK") && outbox == Replies(events.value)
  {
    outbox := [];
    if !VerifySignature(body, signature, ChannelSecret(messagingSecret, channelSecret), hmac) {
      return Response(401, "Unauthorized"), outbox;
    }
    if events.None? {
      return Response(500, "Internal Server Error"), outbox;
    }
    var list := events.value;
    var i := 0;
    while i < |list|
      invariant 0 <= i <= |list|
      invariant outbox == Replies(list[..i])
    {
      var r := HandleEvent(list[i]);
      assert list[..i + 1] == list[..i] + [list[i]];
      RepliesConcat(list[..i], [list[i]]);
      assert [list[i]][1..] == [];
      assert Replies([list[i]]) == ReplyTo(list[i]);
      if r.Some? {
        outbox := outbox + [r.value];
      }
      i := i + 1;
    }
    assert list[..i] == list;
    response := Response(200, "OK");
  }
}
