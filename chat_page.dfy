/**
 * The chat page: a client-side session with a fortune teller. Starting is
 * gated on the balance covering one minute; the session bills whole started
 * minutes when it ends, and the message list grows by the user's message,
 * a typing placeholder, and the reply that replaces the placeholder. Each
 * handler is a transition from one page state to the next.
 */
module ChatPage {
  import opened Wrappers
  import opened Numbers
  import Text
  import Seqs

  datatype Sender = FromUser | FromTeller

  datatype MessageKind = TextMessage | Typing | SystemMessage

  datatype Message = Message(id: string, sender: Sender, message: string, timestamp: string, kind: MessageKind)

  datatype Teller = Teller(id: string, name: string, specialty: string, isOnline: bool, pricePerMinute: nat)

  /** The four tellers the page lists. */
  const Tellers: seq<Teller> := [
    Teller("1", "桜井先生", "恋愛・人間関係", true, 20),
    Teller("2", "田中先生", "仕事・キャリア", true, 25),
    Teller("3", "山田先生", "健康・家族", false, 18),
    Teller("4", "佐藤先生", "金運・投資", true, 30)
  ]

  /** The replies the teller draws from. */
  const Responses: seq<string> := [
    "なるほど、とてもよく分かります。カードに聞いてみますね...",
    "そのお悩み、多くの方が抱えていらっしゃいます。霊感で見てみると...",
    "とても興味深いですね。あなたの運気の流れを見させていただくと...",
    "そのような状況でしたら、まず大切なのは...",
    "カードが教えてくれています。あなたには...",
    "深いお悩みですね。スピリチュアルな視点から見ると..."
  ]

  const TypingText: string := "入力中..."

  /**
   * The page's state; `balance` is the signed-in user's balance, and the
   * instants are milliseconds since the epoch.
   */
  datatype Chat = Chat(
    balance: int,
    selected: Option<Teller>,
    showTellerList: bool,
    messages: seq<Message>,
    input: string,
    isTyping: bool,
    startTime: Option<int>,
    duration: int,
    showEndConfirm: bool)

  /** What the closing alert reports. */
  datatype Summary = Summary(minutes: int, cost: int, balance: nat)

  predicate CanStart(balance: int, t: Teller)
  {
    balance >= t.pricePerMinute
  }

  function Greeting(t: Teller): string
  {
    "こんにちは！" + t.name + "です。" + t.specialty + "の鑑定を承ります。どのようなことでお悩みでしょうか？"
  }

  /**
   * `startChat`: refused when the balance does not cover one minute;
   * otherwise the session starts at `now` with the teller's greeting as its
   * only message. `stamp` is the rendered local time.
   */
  function StartChat(c: Chat, t: Teller, now: nat, stamp: string): (r: Chat)
    ensures c.balance < t.pricePerMinute ==> r == c
    ensures c.balance >= t.pricePerMinute ==>
              && r.selected == Some(t) && !r.showTellerList && r.startTime == Some(now)
              && r.messages == [Message(Text.NatToString(now), FromTeller, Greeting(t), stamp, TextMessage)]
              && r == c.(selected := r.selected, showTellerList := false, startTime := r.startTime, messages := r.messages)
  {
    if !CanStart(c.balance, t) then c
    else
      c.(selected := Some(t), showTellerList := false, startTime := Some(now),
         messages := [Message(Text.NatToString(now), FromTeller, Greeting(t), stamp, TextMessage)])
  }

  /** A click on a teller of the list: offline tellers ignore it. */
  function PickTeller(c: Chat, t: Teller, now: nat, stamp: string): (r: Chat)
    ensures !t.isOnline ==> r == c
    ensures t.isOnline ==> r == StartChat(c, t, now, stamp)
    ensures r.selected != c.selected ==> t.isOnline && CanStart(c.balance, t) && r.selected == Some(t)
  {
    if t.isOnline then StartChat(c, t, now, stamp) else c
  }

  /** The three tellers online are the ones a click can start. */
  lemma OfflineTellerNeverStarts(c: Chat, now: nat, stamp: string)
    ensures PickTeller(c, Tellers[2], now, stamp) == c
    ensures c.balance >= 20 ==> PickTeller(c, Tellers[0], now, stamp).selected == Some(Tellers[0])
  {
  }

  /** The guard of `sendMessage`: nothing typed but white space, or no teller. */
  predicate CannotSend(c: Chat)
  {
    Text.IsBlank(c.input) || c.selected.None?
  }

  function UserMessage(c: Chat, now: nat, stamp: string): Message
  {
    Message(Text.NatToString(now), FromUser, c.input, stamp, TextMessage)
  }

  function TypingMessage(now: nat, stamp: string): Message
  {
    Message(Text.NatToString(now + 1), FromTeller, TypingText, stamp, Typing)
  }

  /** `sendMessage` up to the timer: the user's message, then the placeholder, are appended. */
  function SendMessage(c: Chat, now: nat, stamp: string): (r: Chat)
    ensures CannotSend(c) ==> r == c
    ensures !CannotSend(c) ==>
              && r.messages == c.messages + [UserMessage(c, now, stamp), TypingMessage(now, stamp)]
              && r.messages[|c.messages|].message == c.input && !Text.IsBlank(r.messages[|c.messages|].message)
              && r == c.(messages := r.messages, input := "", isTyping := true)
  {
    Text.TrimEmptyIffBlank(c.input);
    if Text.Trim(c.input) == "" || c.selected.None? then c
    else c.(messages := c.messages + [UserMessage(c, now, stamp), TypingMessage(now, stamp)], input := "", isTyping := true)
  }

  predicate NotTyping(m: Message)
  {
    m.kind != Typing
  }

  /**
   * The timer's callback: every placeholder is dropped, then the reply drawn
   * (`pick` stands for the random index) is appended.
   */
  function ReceiveReply(c: Chat, pick: nat, now: nat, stamp: string): (r: Chat)
    requires pick < |Responses|
    ensures |r.messages| >= 1 && r.messages[|r.messages| - 1] == Message(Text.NatToString(now + 2), FromTeller, Responses[pick], stamp, TextMessage)
    ensures forall i :: 0 <= i < |r.messages| ==> r.messages[i].kind != Typing
    ensures forall m :: m in c.messages && m.kind != Typing ==> m in r.messages
    ensures forall m :: m in r.messages ==> m in c.messages || m == r.messages[|r.messages| - 1]
    ensures r == c.(messages := r.messages, isTyping := false)
  {
    var kept := Seqs.Filter(c.messages, NotTyping);
    c.(messages := kept + [Message(Text.NatToString(now + 2), FromTeller, Responses[pick], stamp, TextMessage)],
       isTyping := false)
  }

  /**
   * The reply keeps the messages that are not placeholders in their order:
   * entry `k` is the message at the `k`-th such position, and the reply
   * comes after them.
   */
  lemma ReceiveReplyKeepsOrder(c: Chat, pick: nat, now: nat, stamp: string)
    requires pick < |Responses|
    ensures |ReceiveReply(c, pick, now, stamp).messages| == |Seqs.Positions(c.messages, NotTyping, 0)| + 1
    ensures forall k :: 0 <= k < |Seqs.Positions(c.messages, NotTyping, 0)| ==>
              Seqs.Positions(c.messages, NotTyping, 0)[k] < |c.messages|
              && ReceiveReply(c, pick, now, stamp).messages[k] == c.messages[Seqs.Positions(c.messages, NotTyping, 0)[k]]
  {
    Seqs.FilterInOrder(c.messages, NotTyping, 0);
    assert c.messages[0..] == c.messages;
  }

  /**
   * One exchange: from a list without placeholders, sending and then
   * receiving the reply leaves the old list, the user's message and the
   * reply, in that order.
   */
  lemma {:induction false} ExchangeAppendsTwo(c: Chat, t1: nat, s1: string, pick: nat, t2: nat, s2: string)
    requires !CannotSend(c) && pick < |Responses|
    requires forall i :: 0 <= i < |c.messages| ==> c.messages[i].kind != Typing
    ensures ReceiveReply(SendMessage(c, t1, s1), pick, t2, s2).messages
            == c.messages + [UserMessage(c, t1, s1), Message(Text.NatToString(t2 + 2), FromTeller, Responses[pick], s2, TextMessage)]
  {
    var sent := SendMessage(c, t1, s1);
    var extra := [UserMessage(c, t1, s1), TypingMessage(t1, s1)];
    assert sent.messages == c.messages + extra;
    DropPlaceholder(c.messages, extra);
  }

  /** Filtering a list without placeholders, followed by a message and a placeholder, drops only the placeholder. */
  lemma DropPlaceholder(ms: seq<Message>, extra: seq<Message>)
    requires forall i :: 0 <= i < |ms| ==> ms[i].kind != Typing
    requires |extra| == 2 && extra[0].kind != Typing && extra[1].kind == Typing
    ensures Seqs.Filter(ms + extra, NotTyping) == ms + [extra[0]]
  {
    Seqs.FilterConcat(ms, extra, NotTyping);
    Seqs.FilterAll(ms, NotTyping);
    assert extra[1..][1..] == [];
    assert Seqs.Filter(extra[1..], NotTyping) == [];
  }

  /** The one-second timer: whole elapsed seconds, `Math.floor((now - start) / 1000)`. */
  function Tick(c: Chat, now: int): (r: Chat)
    ensures c.startTime.None? ==> r == c
    ensures c.startTime.Some? ==>
              && 1000 * r.duration <= now - c.startTime.value < 1000 * (r.duration + 1)
              && r == c.(duration := r.duration)
  {
    if c.startTime.None? then c else c.(duration := (now - c.startTime.value) / 1000)
  }

  /** `Math.ceil(duration / 60)`: the minutes started. */
  function Minutes(duration: int): (m: int)
    ensures 60 * (m - 1) < duration <= 60 * m
  {
    CeilDiv(duration, 60)
  }

  /** The charge shown while chatting: minutes started times the teller's price, 0 without a teller. */
  function ShownCost(c: Chat): int
  {
    Minutes(c.duration) * (if c.selected.Some? then c.selected.value.pricePerMinute else 0)
  }

  /** The balance the end-of-chat dialog shows, unclamped. */
  function DialogBalance(c: Chat): int
  {
    c.balance - ShownCost(c)
  }

  /**
   * `endChat`: without a teller or a start time it does nothing; otherwise
   * the started minutes are billed, the balance never going below zero, and
   * the alert reports minutes, cost and new balance.
   */
  function EndChat(c: Chat): (r: (Chat, Option<Summary>))
    ensures c.selected.None? || c.startTime.None? ==> r == (c, None)
    ensures c.selected.Some? && c.startTime.Some? ==>
              var cost := Minutes(c.duration) * c.selected.value.pricePerMinute;
              && r.1.Some? && r.1.value.minutes == Minutes(c.duration) && r.1.value.cost == cost
              && r.0 == c.(balance := r.1.value.balance)
              && r.1.value.balance >= 0
              && (cost <= c.balance ==> r.1.value.balance == c.balance - cost)
              && (cost > c.balance ==> r.1.value.balance == 0)
  {
    if c.selected.None? || c.startTime.None? then (c, None)
    else
      var minutes := Minutes(c.duration);
      var cost := minutes * c.selected.value.pricePerMinute;
      var newBalance := Max0(c.balance - cost);
      (c.(balance := newBalance), Some(Summary(minutes, cost, newBalance)))
  }

  /** The applied balance is the dialog's figure clamped at zero: equal when that figure is not negative. */
  lemma EndChatClampsDialog(c: Chat)
    requires c.selected.Some? && c.startTime.Some?
    ensures EndChat(c).0.balance == Max0(DialogBalance(c))
    ensures EndChat(c).0.balance == DialogBalance(c) <==> DialogBalance(c) >= 0
  {
  }

  /** The dialog can announce a negative balance that the session does not apply: two started minutes of a 20-point teller on 20 points. */
  lemma DialogCanShowNegative()
    ensures var t := Tellers[0];
            var c := Chat(20, Some(t), false, [], "", false, Some(0), 61, true);
            && DialogBalance(c) == -20
            && EndChat(c).0.balance == 0
            && EndChat(c).1 == Some(Summary(2, 40, 0))
  {
    var c := Chat(20, Some(Tellers[0]), false, [], "", false, Some(0), 61, true);
    assert Minutes(61) == 2;
  }

  /**
   * The gate and the bill agree on the first minute: a session that could
   * start and ends after its first whole second but within its first
   * minute costs exactly one minute's price, which the balance covers.
   */
  lemma {:induction false} FirstMinuteIsCovered(c: Chat, t: Teller, start: nat, stamp: string, now: int)
    requires CanStart(c.balance, t)
    requires start + 1000 <= now < start + 61000
    ensures var ended := EndChat(Tick(StartChat(c, t, start, stamp), now));
            ended.1.Some? && ended.1.value.cost == t.pricePerMinute
            && ended.0.balance == c.balance - t.pricePerMinute >= 0
  {
    var s := Tick(StartChat(c, t, start, stamp), now);
    assert 1 <= s.duration <= 60;
    assert Minutes(s.duration) == 1;
  }

  /** Elapsed time is counted in whole seconds, so a session ended within its first second is free. */
  lemma {:induction false} FirstSecondIsFree(c: Chat, t: Teller, start: nat, stamp: string, now: int)
    requires CanStart(c.balance, t)
    requires start <= now < start + 1000
    ensures var ended := EndChat(Tick(StartChat(c, t, start, stamp), now));
            ended.1 == Some(Summary(0, 0, c.balance))
  {
    var s := Tick(StartChat(c, t, start, stamp), now);
    assert s.duration == 0;
    assert Minutes(0) == 0;
  }

  /** `formatTime`: minutes, a colon, then the seconds padded to two digits. */
  function FormatTime(seconds: nat): string
  {
    Text.NatToString(seconds / 60) + ":" + Text.PadStart2(Text.NatToString(seconds % 60))
  }

  /** The position of the first colon, or the length when there is none. */
  function ColonAt(r: string): (k: nat)
    ensures k <= |r| && (k < |r| ==> r[k] == ':')
    ensures forall i :: 0 <= i < k ==> r[i] != ':'
  {
    if r == [] || r[0] == ':' then 0 else 1 + ColonAt(r[1..])
  }

  /** Reads `m:ss` back as seconds: digits, a colon, two digits below 60. */
  function ReadTime(r: string): (s: Option<nat>)
    ensures s.Some? ==> ColonAt(r) < |r| && |r| - ColonAt(r) == 3
  {
    var k := ColonAt(r);
    if k == |r| then None
    else
      var mins := r[..k];
      var secs := r[k + 1..];
      if Text.AllDigits(mins) && Text.AllDigits(secs) && |secs| == 2 && Text.DigitsValue(secs) < 60
      then Some(Text.DigitsValue(mins) * 60 + Text.DigitsValue(secs))
      else None
  }

  lemma {:induction false} ColonAfterDigits(a: string, b: string)
    requires Text.AllDigits(a)
    ensures ColonAt(a + ":" + b) == |a|
  {
    if a != [] {
      assert (a + ":" + b)[1..] == a[1..] + ":" + b;
      ColonAfterDigits(a[1..], b);
    }
  }

  /** The padded seconds read back as the seconds. */
  lemma PaddedSeconds(x: nat)
    requires x < 60
    ensures var p := Text.PadStart2(Text.NatToString(x));
            |p| == 2 && Text.AllDigits(p) && Text.DigitsValue(p) == x
  {
    Text.DigitsValueOfNatToString(x);
    var d := Text.NatToString(x);
    if x < 10 {
      var p := Text.PadStart2(d);
      assert p == "0" + d;
      assert p[..1] == "0";
    } else {
      assert d == Text.NatToString(x / 10) + [Text.DigitChar(x % 10)];
    }
  }

  /** The clock display is unambiguous: it reads back as the seconds it shows. */
  lemma FormatTimeRoundTrip(seconds: nat)
    ensures ReadTime(FormatTime(seconds)) == Some(seconds)
  {
    var m := Text.NatToString(seconds / 60);
    var p := Text.PadStart2(Text.NatToString(seconds % 60));
    var r := FormatTime(seconds);
    ColonAfterDigits(m, p);
    PaddedSeconds(seconds % 60);
    Text.DigitsValueOfNatToString(seconds / 60);
    assert r[..|m|] == m;
    assert r[|m| + 1..] == p;
  }
}
