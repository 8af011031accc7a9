/** Publishing jobs in bounded batches (apps/api/src/queue-producer.ts). */
module QueueProducer {
  import opened Basics

  type Body(==, !new)

  type Unchecked(==, !new)

  /** A checked job with its size on the wire, metadata included. */
  datatype Message = Message(body: Body, bytes: nat)

  const METADATA_BYTES: nat := 100
  const MAX_MESSAGE_BYTES: nat := 128_000
  const MAX_BATCH_BYTES: nat := 256_000
  const MAX_BATCH_LENGTH: nat := 100

  /** `parseQueueJob`, and the length of a job's JSON in bytes. */
  datatype Codec = Codec(parse: Unchecked -> Option<Body>, size: Body -> nat)

  function Checked(codec: Codec, input: Unchecked): Option<Message> {
    var body := codec.parse(input);
    if body.Some? && codec.size(body.value) + METADATA_BYTES <= MAX_MESSAGE_BYTES then
      Some(Message(body.value, codec.size(body.value) + METADATA_BYTES))
    else None
  }

  predicate AllValid(codec: Codec, inputs: seq<Unchecked>) {
    forall i :: 0 <= i < |inputs| ==> Checked(codec, inputs[i]).Some?
  }

  function Messages(codec: Codec, inputs: seq<Unchecked>): seq<Message>
    requires AllValid(codec, inputs)
  {
    seq(|inputs|, i requires 0 <= i < |inputs| => Checked(codec, inputs[i]).value)
  }

  function Bytes(batch: seq<Message>): nat {
    if batch == [] then 0 else Bytes(batch[..|batch| - 1]) + batch[|batch| - 1].bytes
  }

  predicate Legal(batch: seq<Message>) {
    0 < |batch| <= MAX_BATCH_LENGTH && Bytes(batch) <= MAX_BATCH_BYTES
  }

  predicate Fits(batch: seq<Message>, m: Message) {
    |batch| < MAX_BATCH_LENGTH && Bytes(batch) + m.bytes <= MAX_BATCH_BYTES
  }

  function Flatten(batches: seq<seq<Message>>): seq<Message> {
    if batches == [] then [] else batches[0] + Flatten(batches[1..])
  }

  /** A way of sending the messages in order within the limits. */
  predicate Splits(batches: seq<seq<Message>>, messages: seq<Message>) {
    Flatten(batches) == messages && forall i :: 0 <= i < |batches| ==> Legal(batches[i])
  }

  /** The i-th batch has no room for the first message of the next one. */
  predicate ClosedAt(batches: seq<seq<Message>>, i: nat) {
    i + 1 < |batches| ==> batches[i + 1] != [] && !Fits(batches[i], batches[i + 1][0])
  }

  predicate Greedy(batches: seq<seq<Message>>) { forall i: nat :: i < |batches| ==> ClosedAt(batches, i) }

  /** A job may take up 127 900 bytes, a hundred less than the platform's limit; a call may carry a hundred jobs and
      256 000 bytes, of which each job uses a hundred more than its own. */
  lemma LimitsExactly(codec: Codec, inputs: seq<Unchecked>, batches: seq<seq<Message>>)
    ensures AllValid(codec, inputs) <==> forall i :: 0 <= i < |inputs| ==>
      codec.parse(inputs[i]).Some? && codec.size(codec.parse(inputs[i]).value) <= 127_900
    ensures AllValid(codec, inputs) ==> forall i :: 0 <= i < |inputs| ==>
      Messages(codec, inputs)[i] ==
        Message(codec.parse(inputs[i]).value, codec.size(codec.parse(inputs[i]).value) + 100)
    ensures AllValid(codec, inputs) && Splits(batches, Messages(codec, inputs)) ==>
      forall k :: 0 <= k < |batches| ==> 1 <= |batches[k]| <= 100 && Bytes(batches[k]) <= 256_000
  {
    forall i | 0 <= i < |inputs|
      ensures Checked(codec, inputs[i]).Some? <==>
        codec.parse(inputs[i]).Some? && codec.size(codec.parse(inputs[i]).value) <= 127_900
    {
    }
  }

  // ---------------------------------------------------------- optimality

  lemma {:induction false} BytesAdd(a: seq<Message>, b: seq<Message>)
    ensures Bytes(a + b) == Bytes(a) + Bytes(b)
  {
    if b == [] {
      assert a + b == a;
    } else {
      assert (a + b)[..|a + b| - 1] == a + b[..|b| - 1];
      BytesAdd(a, b[..|b| - 1]);
    }
  }

  /** A part of a legal batch leaves room for what follows it there. */
  lemma PartFits(batch: seq<Message>, part: seq<Message>, from: nat)
    requires Legal(batch) && from + |part| < |batch| && part == batch[from..from + |part|]
    ensures Fits(part, batch[from + |part|])
  {
    var to := from + |part|;
    assert batch == batch[..from] + (part + [batch[to]]) + batch[to + 1..];
    BytesAdd(batch[..from] + (part + [batch[to]]), batch[to + 1..]);
    BytesAdd(batch[..from], part + [batch[to]]);
    BytesAdd(part, [batch[to]]);
    assert Bytes([batch[to]]) == batch[to].bytes by { assert [batch[to]][..0] == []; }
  }

  /** If the first greedy batch ended before the split's first batch does, the next message would have fitted. */
  lemma RoomForNext(greedy: seq<seq<Message>>, split: seq<seq<Message>>, from: nat)
    requires greedy != [] && split != [] && Legal(split[0]) && from <= |Flatten(split)|
    requires Flatten(greedy) == Flatten(split)[from..] && from + |greedy[0]| < |split[0]|
    requires |greedy| > 1 ==> greedy[1] != []
    ensures |greedy| > 1 && Fits(greedy[0], greedy[1][0])
  {
    var n := |greedy[0]|;
    var all := Flatten(greedy);
    assert all[..n] == greedy[0] == split[0][from..from + n];
    PartFits(split[0], greedy[0], from);
    assert all[n] == split[0][from + n] && all[n] == Flatten(greedy[1..])[0];
  }

  lemma {:induction false} GreedyIsOptimal(greedy: seq<seq<Message>>, split: seq<seq<Message>>, from: nat)
    requires from <= |Flatten(split)| && Splits(greedy, Flatten(split)[from..]) && Splits(split, Flatten(split))
    requires Greedy(greedy)
    ensures |greedy| <= |split|
    decreases |greedy|
  {
    if greedy != [] {
      assert Flatten(greedy) != [];
      assert ClosedAt(greedy, 0);
      if from + |greedy[0]| < |split[0]| {
        RoomForNext(greedy, split, from);
        assert false;
      }
      forall i: nat | i < |greedy| - 1 ensures ClosedAt(greedy[1..], i) { assert ClosedAt(greedy, i + 1); }
      var next := from + |greedy[0]| - |split[0]|;
      assert Flatten(greedy[1..]) == Flatten(greedy)[|greedy[0]|..] == Flatten(split)[from + |greedy[0]|..];
      assert Flatten(split[1..]) == Flatten(split)[|split[0]|..];
      assert Flatten(greedy[1..]) == Flatten(split[1..])[next..];
      GreedyIsOptimal(greedy[1..], split[1..], next);
    }
  }

  // ------------------------------------------------------------- sending

  datatype Outcome = Published | Rejected | QueueFailed

  lemma {:induction false} FlattenAppend(batches: seq<seq<Message>>, last: seq<Message>)
    ensures Flatten(batches + [last]) == Flatten(batches) + last
  {
    if batches == [] {
      assert [last][1..] == [];
    } else {
      assert (batches + [last])[1..] == batches[1..] + [last];
      FlattenAppend(batches[1..], last);
    }
  }

  /** The loop's state: batches sent so far and the one being filled. */
  ghost predicate Filling(sent: seq<seq<Message>>, batch: seq<Message>, done: seq<Message>) {
    && Flatten(sent) + batch == done
    && (forall i :: 0 <= i < |sent| ==> Legal(sent[i])) && (batch != [] ==> Legal(batch))
    && (batch == [] ==> sent == [])
    && (batch != [] ==> Greedy(sent + [batch]))
  }

  lemma BytesOne(m: Message)
    ensures Bytes([m]) == m.bytes
  {
    assert [m][..0] == [];
  }

  /** A full batch is closed and the message starts the next one. */
  lemma Flushed(sent: seq<seq<Message>>, batch: seq<Message>, done: seq<Message>, m: Message)
    requires Filling(sent, batch, done) && batch != [] && !Fits(batch, m) && m.bytes <= MAX_MESSAGE_BYTES
    ensures Filling(sent + [batch], [m], done + [m])
  {
    FlattenAppend(sent, batch);
    BytesOne(m);
    var more := sent + [batch] + [[m]];
    forall i: nat | i < |more| ensures ClosedAt(more, i) {
      if i < |sent| { assert ClosedAt(sent + [batch], i); }
    }
  }

  /** The message still fits. */
  lemma Pushed(sent: seq<seq<Message>>, batch: seq<Message>, done: seq<Message>, m: Message)
    requires Filling(sent, batch, done) && Fits(batch, m)
    ensures Filling(sent, batch + [m], done + [m])
  {
    BytesAdd(batch, [m]);
    BytesOne(m);
    var more := sent + [batch + [m]];
    forall i: nat | i < |more| ensures ClosedAt(more, i) {
      if i < |sent| { assert ClosedAt(sent + [batch], i); }
    }
  }

  /** All messages, in order, within the limits, in as few batches as possible. */
  ghost predicate Optimal(batches: seq<seq<Message>>, messages: seq<Message>) {
    && Splits(batches, messages) && Greedy(batches)
    && forall other :: Splits(other, messages) ==> |batches| <= |other|
  }

  lemma FilledIsOptimal(sent: seq<seq<Message>>, batch: seq<Message>, messages: seq<Message>)
    requires Filling(sent, batch, messages)
    ensures Optimal(if batch == [] then [] else sent + [batch], messages)
  {
    FlattenAppend(sent, batch);
    var batches := if batch == [] then [] else sent + [batch];
    forall other | Splits(other, messages) ensures |batches| <= |other| {
      assert Flatten(other)[0..] == messages;
      GreedyIsOptimal(batches, other, 0);
    }
  }

  /** When the platform refuses a batch, those before it have been sent. */
  ghost predicate Partly(before: seq<seq<Message>>, after: seq<seq<Message>>, messages: seq<Message>) {
    before <= after && Flatten(after[|before|..]) < messages &&
    forall i :: |before| <= i < |after| ==> Legal(after[i])
  }

  /** The loop has put the first `i` messages into the batches sent and the batch being filled. */
  ghost predicate Loaded(sent: seq<seq<Message>>, batch: seq<Message>, bytes: int, messages: seq<Message>, i: nat)
    requires i <= |messages|
  {
    bytes == Bytes(batch) && Filling(sent, batch, messages[..i])
  }

  /** One turn of the loop: the next message joins the batch, or starts a new one after the batch is sent. */
  lemma NextMessage(sent: seq<seq<Message>>, batch: seq<Message>, bytes: int, messages: seq<Message>, i: nat)
    requires i < |messages| && Loaded(sent, batch, bytes, messages, i) && messages[i].bytes <= MAX_MESSAGE_BYTES
    ensures var m := messages[i];
      if |batch| == MAX_BATCH_LENGTH || bytes + m.bytes > MAX_BATCH_BYTES
      then batch != [] && Loaded(sent + [batch], [m], m.bytes, messages, i + 1)
      else Loaded(sent, batch + [m], bytes + m.bytes, messages, i + 1)
  {
    var m := messages[i];
    assert messages[..i + 1] == messages[..i] + [m];
    BytesAdd(batch, [m]);
    BytesOne(m);
    if Fits(batch, m) { Pushed(sent, batch, messages[..i], m); } else { Flushed(sent, batch, messages[..i], m); }
  }

  lemma StoppedAt(before: seq<seq<Message>>, after: seq<seq<Message>>, mine: seq<seq<Message>>, batch: seq<Message>,
                  messages: seq<Message>, i: nat)
    requires after == before + mine && i <= |messages| && Filling(mine, batch, messages[..i]) && batch != []
    ensures Partly(before, after, messages)
  {
    assert after[|before|..] == mine;
    assert Flatten(mine) + batch <= messages;
  }

  /** The end of the loop, with something left in the batch or not. */
  lemma RestSent(before: seq<seq<Message>>, mine: seq<seq<Message>>, batch: seq<Message>, messages: seq<Message>)
    requires Filling(mine, batch, messages)
    ensures batch == [] ==> Optimal((before + mine)[|before|..], messages)
    ensures batch != [] ==>
      && Partly(before, before + mine, messages)
      && before <= before + mine + [batch]
      && Optimal((before + mine + [batch])[|before|..], messages)
  {
    FilledIsOptimal(mine, batch, messages);
    assert messages[..|messages|] == messages;
    if batch == [] {
      assert (before + mine)[|before|..] == [];
    } else {
      StoppedAt(before, before + mine, mine, batch, messages, |messages|);
      assert (before + mine + [batch])[|before|..] == mine + [batch];
    }
  }

  class Queue {
    /** The platform refuses the n-th call. */
    const refuses: nat -> bool
    var sent: seq<seq<Message>>
    var calls: nat

    method Send(batch: seq<Message>) returns (ok: bool)
      modifies this
      ensures calls == old(calls) + 1 && ok == !refuses(old(calls))
      ensures sent == if ok then old(sent) + [batch] else old(sent)
    {
      ok := !refuses(calls);
      calls := calls + 1;
      if ok { sent := sent + [batch]; }
    }

    method Check(codec: Codec, inputs: seq<Unchecked>) returns (messages: Option<seq<Message>>)
      ensures messages.Some? <==> AllValid(codec, inputs)
      ensures messages.Some? ==> messages.value == Messages(codec, inputs)
    {
      var all: seq<Message> := [];
      for i := 0 to |inputs|
        invariant AllValid(codec, inputs[..i]) && all == Messages(codec, inputs[..i])
      {
        var body := codec.parse(inputs[i]);
        if body.None? { return None; }
        var bytes := codec.size(body.value) + METADATA_BYTES;
        if bytes > MAX_MESSAGE_BYTES { return None; }
        all := all + [Message(body.value, bytes)];
      }
      assert inputs[..|inputs|] == inputs;
      return Some(all);
    }

    /** Nothing is sent unless every message is valid; then the batches hold the messages in order, within the
        limits, and no other such split has fewer batches. */
    method SendBatch(codec: Codec, inputs: seq<Unchecked>) returns (outcome: Outcome)
      modifies this
      ensures outcome == Rejected <==> !AllValid(codec, inputs)
      ensures outcome == Rejected ==> sent == old(sent) && calls == old(calls)
      ensures outcome == QueueFailed ==> Partly(old(sent), sent, Messages(codec, inputs))
      ensures outcome == QueueFailed ==> calls > old(calls) && refuses(calls - 1)
      ensures calls - old(calls) == |sent| - |old(sent)| + if outcome == QueueFailed then 1 else 0
      ensures outcome == Published ==> old(sent) <= sent && Optimal(sent[|old(sent)|..], Messages(codec, inputs))
    {
      var checked := Check(codec, inputs);
      if checked.None? { return Rejected; }
      var published := SendAll(checked.value);
      return if published then Published else QueueFailed;
    }

    method SendAll(messages: seq<Message>) returns (published: bool)
      requires forall i :: 0 <= i < |messages| ==> messages[i].bytes <= MAX_MESSAGE_BYTES
      modifies this
      ensures !published ==> Partly(old(sent), sent, messages)
      ensures published ==> old(sent) <= sent && Optimal(sent[|old(sent)|..], messages)
      ensures !published ==> calls > old(calls) && refuses(calls - 1)
      ensures calls - old(calls) == |sent| - |old(sent)| + if published then 0 else 1
    {
      var batch: seq<Message> := [];
      var batchBytes := 0;
      ghost var mine: seq<seq<Message>> := [];
      for i := 0 to |messages|
        invariant sent == old(sent) + mine && Loaded(mine, batch, batchBytes, messages, i)
        invariant calls == old(calls) + |mine|
      {
        var message := messages[i];
        NextMessage(mine, batch, batchBytes, messages, i);
        var full := |batch| == MAX_BATCH_LENGTH || batchBytes + message.bytes > MAX_BATCH_BYTES;
        if full {
          var ok := SendFull(batch, batchBytes, messages, i, mine, old(sent));
          if !ok { return false; }
          mine := mine + [batch];
        }
        batch := if full then [message] else batch + [message];
        batchBytes := if full then message.bytes else batchBytes + message.bytes;
      }
      assert messages[..|messages|] == messages;
      published := SendRest(batch, messages, mine, old(sent));
    }

    method SendFull(batch: seq<Message>, ghost bytes: int, ghost messages: seq<Message>, ghost i: nat,
                    ghost mine: seq<seq<Message>>, ghost before: seq<seq<Message>>)
      returns (ok: bool)
      requires sent == before + mine && i <= |messages| && Loaded(mine, batch, bytes, messages, i) && batch != []
      modifies this
      ensures ok ==> sent == before + (mine + [batch])
      ensures !ok ==> sent == old(sent)
      ensures calls == old(calls) + 1 && ok == !refuses(old(calls))
      ensures !ok ==> Partly(before, sent, messages)
    {
      ok := Send(batch);
      if !ok { StoppedAt(before, sent, mine, batch, messages, i); }
    }

    /** What is left in the batch at the end. */
    method SendRest(batch: seq<Message>, ghost messages: seq<Message>, ghost mine: seq<seq<Message>>,
                    ghost before: seq<seq<Message>>)
      returns (published: bool)
      requires sent == before + mine && Filling(mine, batch, messages)
      modifies this
      ensures !published ==> Partly(before, sent, messages)
      ensures published ==> before <= sent && Optimal(sent[|before|..], messages)
      ensures !published ==> calls > old(calls) && refuses(calls - 1)
      ensures calls - old(calls) == |sent| - |old(sent)| + if published then 0 else 1
    {
      RestSent(before, mine, batch, messages);
      if |batch| == 0 { return true; }
      published := Send(batch);
    }
  }
}
