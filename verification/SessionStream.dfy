/** A session round over byte streams instead of message queues. */
module SessionStream {
  import opened Bytes
  import opened Clock
  import opened Wire
  import opened Lww
  import opened ReplLog
  import opened Collections
  import opened Sync
  import opened Delivery
  import opened Messages
  import opened Session
  import opened SessionRound
  import Protocol

  /** Two peers and the bytes that neither has read yet. */
  datatype Wired = Wired(low: State, high: State, toHigh: seq<byte>, toLow: seq<byte>)

  /** A message and the order in which its map is visited in writing it. */
  datatype Item = Item(message: Message, order: seq<PeerId>)

  /** The writer sends it. */
  ghost predicate Writable(x: Item) {
    && Protocol.Sendable(x.message, x.order)
    && (x.message.Hello? ==> forall p :: p in x.order ==> p in x.message.cursors)
    && Protocol.Written(x.message, x.order).Bytes?
  }

  ghost predicate AllWritable(items: seq<Item>) {
    forall i :: 0 <= i < |items| ==> Writable(items[i])
  }

  ghost function PayloadLen(x: Item): nat
    requires Writable(x)
  {
    |Protocol.Payload(x.message, x.order).bytes|
  }

  /** The reader's limit admits it. */
  ghost predicate Fits(x: Item) {
    Writable(x) && PayloadLen(x) <= Protocol.MAX_MESSAGE_LEN
  }

  ghost predicate AllFit(items: seq<Item>) {
    forall i :: 0 <= i < |items| ==> Fits(items[i])
  }

  ghost function Chunk(x: Item): seq<byte> {
    if Writable(x) then Protocol.Written(x.message, x.order).bytes else []
  }

  /** The bytes of items written one after another. */
  ghost function Spelled(items: seq<Item>): seq<byte> {
    if items == [] then [] else Chunk(items[0]) + Spelled(items[1..])
  }

  function MessagesOf(items: seq<Item>): seq<Message> {
    seq(|items|, i requires 0 <= i < |items| => items[i].message)
  }

  /** One side reads a message off its stream and writes `answers`, whatever their size. */
  ghost predicate Reads(w: Wired, turn: Turn, answers: seq<Item>, next: Wired) {
    var (reader, stream) := if turn.lowReads then (w.low, w.toLow) else (w.high, w.toHigh);
    && Protocol.ReadMessage(stream).Ok?
    && var (m, rest) := Protocol.ReadMessage(stream).value;
    var (s, out) := Handled(reader, m, turn.order, turn.wall);
    && (m.Hello? ==> Enumerates(turn.order, reader.log.observed.Keys))
    && MessagesOf(answers) == out && AllWritable(answers)
    && next == if turn.lowReads then w.(low := s, toLow := rest, toHigh := w.toHigh + Spelled(answers))
               else w.(high := s, toHigh := rest, toLow := w.toLow + Spelled(answers))
  }

  // ---- a stream is a queue -----------------------------------------------

  /** What reading a stream that starts with this item gives. */
  lemma HeadReads(x: Item, rest: seq<byte>)
    requires Writable(x)
    ensures Protocol.ReadMessage(Chunk(x) + rest) ==
      if Fits(x) then Ok((x.message, rest)) else Err(Protocol.TooLarge(PayloadLen(x)))
  {
    Protocol.MessageRoundTrip(x.message, x.order, rest);
  }

  lemma FrontReads(items: seq<Item>)
    requires AllWritable(items) && items != []
    ensures Protocol.ReadMessage(Spelled(items)) ==
      if Fits(items[0]) then Ok((items[0].message, Spelled(items[1..])))
      else Err(Protocol.TooLarge(PayloadLen(items[0])))
  {
    HeadReads(items[0], Spelled(items[1..]));
  }

  lemma NothingReads(items: seq<Item>)
    requires AllWritable(items)
    ensures Spelled(items) == [] <==> items == []
    ensures Protocol.ReadMessage([]).Err?
  {
    if items != [] {
      FrontReads(items);
    }
  }

  lemma {:induction false} SpelledConcat(a: seq<Item>, b: seq<Item>)
    ensures Spelled(a + b) == Spelled(a) + Spelled(b)
    decreases |a|
  {
    if a == [] {
      assert a + b == b;
    } else {
      assert (a + b)[1..] == a[1..] + b;
      SpelledConcat(a[1..], b);
    }
  }

  /** A channel as bytes, as items and as messages. */
  ghost predicate Carries(stream: seq<byte>, items: seq<Item>, channel: seq<Message>) {
    AllWritable(items) && stream == Spelled(items) && channel == MessagesOf(items)
  }

  /** Only an item that fits can be read, and then it leaves the channel. */
  lemma TakesFront(stream: seq<byte>, items: seq<Item>, channel: seq<Message>)
    requires Carries(stream, items, channel) && Protocol.ReadMessage(stream).Ok?
    ensures channel != [] && Fits(items[0])
    ensures var (m, rest) := Protocol.ReadMessage(stream).value;
      m == channel[0] && Carries(rest, items[1..], channel[1..])
    ensures AllFit(items[1..]) <==> AllFit(items)
  {
    NothingReads(items);
    FrontReads(items);
    FitTail(items);
    CarriesTail(items);
  }

  lemma CarriesTail(items: seq<Item>)
    requires AllWritable(items) && items != []
    ensures Carries(Spelled(items[1..]), items[1..], MessagesOf(items)[1..])
  {
    var tail := items[1..];
    forall i | 0 <= i < |tail| ensures Writable(tail[i]) {
      assert tail[i] == items[i + 1];
    }
    assert MessagesOf(tail) == MessagesOf(items)[1..];
  }

  lemma FitTail(items: seq<Item>)
    requires items != []
    ensures AllFit(items) <==> Fits(items[0]) && AllFit(items[1..])
  {
    var head, tail := [items[0]], items[1..];
    assert items == head + tail;
    FitConcat(head, tail);
  }

  lemma ConcatAt(a: seq<Item>, b: seq<Item>, i: nat)
    requires i < |a| + |b|
    ensures (a + b)[i] == if i < |a| then a[i] else b[i - |a|]
  {
  }

  lemma WritableConcat(a: seq<Item>, b: seq<Item>)
    requires AllWritable(a) && AllWritable(b)
    ensures AllWritable(a + b)
  {
    var all := a + b;
    forall i | 0 <= i < |all| ensures Writable(all[i]) {
      ConcatAt(a, b, i);
    }
  }

  lemma FitConcat(a: seq<Item>, b: seq<Item>)
    ensures AllFit(a + b) <==> AllFit(a) && AllFit(b)
  {
    var all := a + b;
    if AllFit(a) && AllFit(b) {
      forall i | 0 <= i < |all| ensures Fits(all[i]) {
        ConcatAt(a, b, i);
      }
    }
    if AllFit(all) {
      forall i | 0 <= i < |a| ensures Fits(a[i]) {
        ConcatAt(a, b, i);
      }
      forall i | 0 <= i < |b| ensures Fits(b[i]) {
        ConcatAt(a, b, |a| + i);
      }
    }
  }

  lemma GivesBack(stream: seq<byte>, items: seq<Item>, channel: seq<Message>, answers: seq<Item>)
    requires Carries(stream, items, channel) && AllWritable(answers)
    ensures Carries(stream + Spelled(answers), items + answers, channel + MessagesOf(answers))
    ensures AllFit(items + answers) <==> AllFit(items) && AllFit(answers)
  {
    SpelledConcat(items, answers);
    WritableConcat(items, answers);
    FitConcat(items, answers);
    MessagesConcat(items, answers);
  }

  lemma MessagesConcat(a: seq<Item>, b: seq<Item>)
    ensures MessagesOf(a + b) == MessagesOf(a) + MessagesOf(b)
  {
  }

  // ---- the round -----------------------------------------------------------

  ghost predicate Represents(w: Wired, p: Pair, high: seq<Item>, low: seq<Item>) {
    w.low == p.low && w.high == p.high && Carries(w.toHigh, high, p.toHigh) && Carries(w.toLow, low, p.toLow)
  }

  /** What happens on the streams happens on the queues; an item that does not fit stays where it is. */
  lemma ReadIsTurn(w: Wired, p: Pair, high: seq<Item>, low: seq<Item>, turn: Turn, answers: seq<Item>, next: Wired)
    returns (high': seq<Item>, low': seq<Item>)
    requires Represents(w, p, high, low) && Reads(w, turn, answers, next)
    ensures CanTurn(p, turn) && Represents(next, AfterTurn(p, turn), high', low')
    ensures AllFit(high') && AllFit(low') <==> AllFit(high) && AllFit(low) && AllFit(answers)
  {
    if turn.lowReads {
      TakesFront(w.toLow, low, p.toLow);
      GivesBack(w.toHigh, high, p.toHigh, answers);
      high', low' := high + answers, low[1..];
    } else {
      TakesFront(w.toHigh, high, p.toHigh);
      GivesBack(w.toLow, low, p.toLow, answers);
      high', low' := high[1..], low + answers;
    }
  }

  ghost predicate ReadAt(ws: seq<Wired>, turns: seq<Turn>, answers: seq<seq<Item>>, i: nat)
    requires 0 < i < |ws| == |turns| + 1 == |answers| + 1
  {
    Reads(ws[i - 1], turns[i - 1], answers[i - 1], ws[i])
  }

  ghost predicate PlaysOnWire(ws: seq<Wired>, turns: seq<Turn>, answers: seq<seq<Item>>) {
    |ws| == |turns| + 1 == |answers| + 1 && forall i: nat :: 0 < i < |ws| ==> ReadAt(ws, turns, answers, i)
  }

  ghost predicate AllAnswersFit(answers: seq<seq<Item>>) {
    forall i :: 0 <= i < |answers| ==> AllFit(answers[i])
  }

  lemma PlaysPrefix(ws: seq<Wired>, turns: seq<Turn>, answers: seq<seq<Item>>)
    requires PlaysOnWire(ws, turns, answers) && turns != []
    ensures var n := |turns| - 1;
      PlaysOnWire(ws[..n + 1], turns[..n], answers[..n]) && Reads(ws[n], turns[n], answers[n], ws[n + 1])
  {
    var n := |turns| - 1;
    var ws', turns', answers' := ws[..n + 1], turns[..n], answers[..n];
    assert ReadAt(ws, turns, answers, n + 1);
    forall i: nat | 0 < i < |ws'| ensures ReadAt(ws', turns', answers', i) {
      assert ReadAt(ws, turns, answers, i);
    }
  }

  lemma FitSnoc(answers: seq<seq<Item>>)
    requires answers != []
    ensures AllAnswersFit(answers) <==> AllAnswersFit(answers[..|answers| - 1]) && AllFit(answers[|answers| - 1])
  {
  }

  /** Everything written is still unread or fits. */
  lemma {:induction false} WireRun(ws: seq<Wired>, turns: seq<Turn>, answers: seq<seq<Item>>, start: Pair,
                                   high: seq<Item>, low: seq<Item>)
    returns (pairs: seq<Pair>, high': seq<Item>, low': seq<Item>)
    requires PlaysOnWire(ws, turns, answers) && Represents(ws[0], start, high, low)
    ensures Plays(pairs, turns) && pairs[0] == start && Represents(ws[|turns|], pairs[|turns|], high', low')
    ensures AllFit(high') && AllFit(low') <==> AllFit(high) && AllFit(low) && AllAnswersFit(answers)
    decreases |turns|
  {
    if turns == [] {
      pairs, high', low' := [start], high, low;
    } else {
      var n := |turns| - 1;
      PlaysPrefix(ws, turns, answers);
      var before, h, l := WireRun(ws[..n + 1], turns[..n], answers[..n], start, high, low);
      high', low' := ReadIsTurn(ws[n], before[n], h, l, turns[n], answers[n], ws[n + 1]);
      pairs := before + [AfterTurn(before[n], turns[n])];
      PlaysOneMore(before, turns, pairs);
      FitSnoc(answers);
    }
  }

  lemma PlaysOneMore(before: seq<Pair>, turns: seq<Turn>, pairs: seq<Pair>)
    requires |turns| > 0 && Plays(before, turns[..|turns| - 1]) && CanTurn(before[|turns| - 1], turns[|turns| - 1])
    requires pairs == before + [AfterTurn(before[|turns| - 1], turns[|turns| - 1])]
    ensures Plays(pairs, turns)
  {
    forall i: nat | 0 < i < |pairs| ensures TurnAt(pairs, turns, i) {
      if i < |turns| {
        assert TurnAt(before, turns[..|turns| - 1], i);
      }
    }
  }

  /** The opening Hellos as items. */
  ghost predicate OpenedOnWire(w: Wired, opening: bool, high: seq<Item>, low: seq<Item>) {
    && Opened(Pair(w.low, w.high, MessagesOf(high), MessagesOf(low)), opening)
    && Carries(w.toHigh, high, MessagesOf(high)) && Carries(w.toLow, low, MessagesOf(low))
  }

  /** Neither side can read: its stream is empty or its next message is refused. */
  predicate Ended(w: Wired) {
    Protocol.ReadMessage(w.toHigh).Err? && Protocol.ReadMessage(w.toLow).Err?
  }

  predicate Refused(stream: seq<byte>) {
    var r := Protocol.ReadMessage(stream);
    r.Err? && r.error.TooLarge? && r.error.len > Protocol.MAX_MESSAGE_LEN
  }

  lemma ReadsOrRefuses(stream: seq<byte>, items: seq<Item>, channel: seq<Message>)
    requires Carries(stream, items, channel)
    ensures stream == [] <==> channel == []
    ensures stream == [] ==> Protocol.ReadMessage(stream).Err?
    ensures stream != [] ==> Protocol.ReadMessage(stream).Ok? || Refused(stream)
    ensures stream != [] && AllFit(items) ==> Protocol.ReadMessage(stream).Ok?
  {
    NothingReads(items);
    if items != [] {
      FrontReads(items);
    }
  }

  /**
   * A round over byte streams takes at most ten reads. A message that is not read is refused for its size and nothing
   * else, so a round that has ended has emptied its streams exactly when everything it wrote fits the reader's limit;
   * then both peers stand at the higher cursors and show the same records.
   */
  lemma StreamsConverge(truth: Truth, ws: seq<Wired>, turns: seq<Turn>, answers: seq<seq<Item>>, opening: bool,
                        high: seq<Item>, low: seq<Item>, key: Key)
    requires PlaysOnWire(ws, turns, answers) && CanMeet(truth, ws[0].low, ws[0].high)
    requires OpenedOnWire(ws[0], opening, high, low)
    ensures |turns| <= if opening then 10 else 4
    ensures var w := ws[|turns|];
      && (w.toHigh != [] ==> Protocol.ReadMessage(w.toHigh).Ok? || Refused(w.toHigh))
      && (w.toLow != [] ==> Protocol.ReadMessage(w.toLow).Ok? || Refused(w.toLow))
      && (Ended(w) ==> (w.toHigh == [] && w.toLow == [] <==> AllFit(high) && AllFit(low) && AllAnswersFit(answers)))
    ensures var w := ws[|turns|];
      w.toHigh == [] && w.toLow == [] ==>
        && (forall o: PeerId ::
              && Cursor(w.low.log, o) == Max(Cursor(ws[0].low.log, o), Cursor(ws[0].high.log, o))
              && Cursor(w.high.log, o) == Max(Cursor(ws[0].low.log, o), Cursor(ws[0].high.log, o)))
        && Visible(w.low.cells, key) == Visible(w.high.cells, key)
  {
    var start := Pair(ws[0].low, ws[0].high, MessagesOf(high), MessagesOf(low));
    var pairs, high', low' := WireRun(ws, turns, answers, start, high, low);
    var w, p := ws[|turns|], pairs[|turns|];
    SessionConverges(truth, pairs, turns, opening, key);
    ReadsOrRefuses(w.toHigh, high', p.toHigh);
    ReadsOrRefuses(w.toLow, low', p.toLow);
  }
}
