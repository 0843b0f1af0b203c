/**
 * The standard Amazon SQS queue as the receiver sees it
 * (packages/amazon-notifications/src/testing.ts): receiving hides a message and counts the
 * receipt, deleting goes by the handle of the latest receipt.
 *
 * The functions state what one request does to the stored messages; class FakeSqs does it with
 * the loops of the source.
 */
module SqsQueue {
  import opened Common

  /** `handle-<messageId>-<receiveCount>`: one handle for each receipt of each message. */
  datatype Handle = Handle(messageId: nat, receipt: nat)

  /** The parsed notification envelope; parsing itself is not part of this model. */
  datatype Envelope = Envelope(
    notificationId: string, applicationId: string, notificationType: string,
    eventTime: Option<int>, sellerId: Option<string>)

  datatype Parsed = Unparseable | Parsed(envelope: Envelope)

  /** What the sender put in the queue; `intact` says that the MD5 of the body matches. */
  datatype Content = Content(intact: bool, parsed: Parsed, sentMs: Option<int>)

  datatype Stored = Stored(
    messageId: nat, content: Content, visibleAtMs: int, receiveCount: nat, handle: Option<Handle>)

  /** A received copy of a message: it carries the handle of its own receipt. */
  datatype Received = Received(handle: Handle, content: Content, receiveCount: nat)

  function Hidden(m: Stored, untilMs: int): (r: Stored) {
    m.(receiveCount := m.receiveCount + 1, visibleAtMs := untilMs,
       handle := Some(Handle(m.messageId, m.receiveCount + 1)))
  }

  function Copy(m: Stored): (r: Received)
    requires m.handle.Some?
  {
    Received(m.handle.value, m.content, m.receiveCount)
  }

  /** The queue after a receive of at most `max` visible messages. */
  function AfterReceive(ms: seq<Stored>, now: int, max: nat, untilMs: int): (r: seq<Stored>)
    ensures |r| == |ms|
  {
    if ms == [] then []
    else if max > 0 && ms[0].visibleAtMs <= now then
      [Hidden(ms[0], untilMs)] + AfterReceive(ms[1..], now, max - 1, untilMs)
    else [ms[0]] + AfterReceive(ms[1..], now, max, untilMs)
  }

  /** The copies that receive hands out. */
  function HandedOut(ms: seq<Stored>, now: int, max: nat): (r: seq<Received>)
    ensures |r| <= max
  {
    if ms == [] then []
    else if max > 0 && ms[0].visibleAtMs <= now then
      [Copy(Hidden(ms[0], 0))] + HandedOut(ms[1..], now, max - 1)
    else HandedOut(ms[1..], now, max)
  }

  /** One step of receive at message `i`, with `left` still to hand out: it is handed out and hidden, or passed over. */
  lemma {:induction false} ReceiveStep(ms: seq<Stored>, before: seq<Stored>, i: nat, now: int, left: nat,
          untilMs: int, out: seq<Received>)
    requires i < |ms| == |before| && ms[i..] == before[i..]
    ensures var taken := left > 0 && ms[i].visibleAtMs <= now;
            var next := if taken then ms[i := Hidden(ms[i], untilMs)] else ms;
            var rest := if taken then left - 1 else left;
            && next[i + 1..] == before[i + 1..]
            && ms[..i] + AfterReceive(before[i..], now, left, untilMs)
                 == next[..i + 1] + AfterReceive(before[i + 1..], now, rest, untilMs)
            && out + HandedOut(before[i..], now, left)
               == (if taken then out + [Copy(Hidden(ms[i], untilMs))] else out) + HandedOut(before[i + 1..], now, rest)
  {
    var taken := left > 0 && ms[i].visibleAtMs <= now;
    var next := if taken then ms[i := Hidden(ms[i], untilMs)] else ms;
    var rest := if taken then left - 1 else left;
    assert ms[i..][0] == before[i..][0] && before[i..][1..] == before[i + 1..] == ms[i..][1..] == ms[i + 1..];
    var after := AfterReceive(before[i + 1..], now, rest, untilMs);
    assert next[..i + 1] == ms[..i] + [next[i]];
    assert ms[..i] + ([next[i]] + after) == (ms[..i] + [next[i]]) + after;
    if taken {
      var m, handed := Copy(Hidden(ms[i], untilMs)), HandedOut(before[i + 1..], now, rest);
      assert out + ([m] + handed) == (out + [m]) + handed;
    }
  }

  /** How many of the first `i` messages are visible. */
  function VisibleBefore(ms: seq<Stored>, now: int, i: nat): (n: nat)
    requires i <= |ms|
  {
    if i == 0 then 0 else VisibleBefore(ms, now, i - 1) + if ms[i - 1].visibleAtMs <= now then 1 else 0
  }

  /** Message `i` is one of the first `max` visible ones. */
  predicate Taken(ms: seq<Stored>, now: int, max: nat, i: nat)
    requires i < |ms|
  {
    ms[i].visibleAtMs <= now && VisibleBefore(ms, now, i) < max
  }

  /** A message once it was received again: one receipt more, its handle, hidden until then. */
  predicate ReceivedAgain(m: Stored, r: Stored, untilMs: int) {
    && r.messageId == m.messageId && r.content == m.content && r.visibleAtMs == untilMs
    && r.receiveCount == m.receiveCount + 1 && r.handle == Some(Handle(m.messageId, m.receiveCount + 1))
  }

  lemma {:induction false} VisibleAfterFirst(ms: seq<Stored>, now: int, i: nat)
    requires 1 <= i <= |ms|
    ensures VisibleBefore(ms, now, i)
         == (if ms[0].visibleAtMs <= now then 1 else 0) + VisibleBefore(ms[1..], now, i - 1)
  {
    if i > 1 {
      VisibleAfterFirst(ms, now, i - 1);
      assert ms[1..][i - 2] == ms[i - 1];
    }
  }

  /**
   * A receive hands out exactly the first `max` visible messages, in order, each as a copy with its new
   * handle and count; these are received once more and hidden, and every other message stays as it is.
   */
  lemma {:induction false} ReceiveIsExact(ms: seq<Stored>, now: int, max: nat, untilMs: int, i: nat)
    requires i < |ms|
    ensures var after, out := AfterReceive(ms, now, max, untilMs), HandedOut(ms, now, max);
            && |out| == Min(max, VisibleBefore(ms, now, |ms|))
            && if Taken(ms, now, max, i) then
                 && ReceivedAgain(ms[i], after[i], untilMs) && VisibleBefore(ms, now, i) < |out|
                 && var copy := out[VisibleBefore(ms, now, i)];
                    copy.handle == after[i].handle.value && copy.content == ms[i].content
                    && copy.receiveCount == after[i].receiveCount
               else after[i] == ms[i]
  {
    var taken := max > 0 && ms[0].visibleAtMs <= now;
    var rest := if taken then max - 1 else max;
    VisibleAfterFirst(ms, now, |ms|);
    HandedOutCount(ms[1..], now, rest);
    if i > 0 {
      VisibleAfterFirst(ms, now, i);
      ReceiveIsExact(ms[1..], now, rest, untilMs, i - 1);
    }
  }

  lemma {:induction false} HandedOutCount(ms: seq<Stored>, now: int, max: nat)
    ensures |HandedOut(ms, now, max)| == Min(max, VisibleBefore(ms, now, |ms|))
  {
    if ms != [] {
      VisibleAfterFirst(ms, now, |ms|);
      HandedOutCount(ms[1..], now, if max > 0 && ms[0].visibleAtMs <= now then max - 1 else max);
    }
  }

  /** Index of the message whose latest receipt has this handle, or the length when there is none. */
  function IndexOf(ms: seq<Stored>, h: Handle): (i: nat)
    ensures i <= |ms|
    ensures i < |ms| ==> ms[i].handle == Some(h)
    ensures forall j :: 0 <= j < i ==> ms[j].handle != Some(h)
  {
    if ms == [] then 0 else if ms[0].handle == Some(h) then 0 else 1 + IndexOf(ms[1..], h)
  }

  function Without(ms: seq<Stored>, i: nat): (r: seq<Stored>)
    requires i < |ms|
    ensures |r| == |ms| - 1
  {
    ms[..i] + ms[i + 1..]
  }

  function AfterDeleteOne(ms: seq<Stored>, h: Handle): (r: seq<Stored>) {
    var i := IndexOf(ms, h);
    if i < |ms| then Without(ms, i) else ms
  }

  /** The queue after DeleteMessageBatch with these handles, in order. */
  function AfterDelete(ms: seq<Stored>, handles: seq<Handle>): (r: seq<Stored>) {
    if handles == [] then ms else AfterDelete(AfterDeleteOne(ms, handles[0]), handles[1..])
  }

  /** Which entries of the batch succeeded: those whose handle was the latest when their turn came. */
  function DeleteFlags(ms: seq<Stored>, handles: seq<Handle>): (r: seq<bool>)
    ensures |r| == |handles|
  {
    if handles == [] then []
    else [IndexOf(ms, handles[0]) < |ms|] + DeleteFlags(AfterDeleteOne(ms, handles[0]), handles[1..])
  }

  function CountTrue(bs: seq<bool>): (n: nat)
    ensures n <= |bs|
  {
    if bs == [] then 0 else (if bs[0] then 1 else 0) + CountTrue(bs[1..])
  }

  function AfterChangeVisibility(ms: seq<Stored>, h: Handle, untilMs: int): (r: seq<Stored>)
    ensures |r| == |ms|
  {
    var i := IndexOf(ms, h);
    if i < |ms| then ms[i := ms[i].(visibleAtMs := untilMs)] else ms
  }

  /**
   * Deleting in several requests is deleting in one: what a batch does is fixed by its handles, not
   * by the chunks of ten they travel in.
   */
  lemma {:induction false} DeleteInChunks(ms: seq<Stored>, first: seq<Handle>, rest: seq<Handle>)
    ensures AfterDelete(ms, first + rest) == AfterDelete(AfterDelete(ms, first), rest)
    ensures DeleteFlags(ms, first + rest) == DeleteFlags(ms, first) + DeleteFlags(AfterDelete(ms, first), rest)
  {
    if first == [] {
      assert first + rest == rest;
    } else {
      assert (first + rest)[1..] == first[1..] + rest;
      DeleteInChunks(AfterDeleteOne(ms, first[0]), first[1..], rest);
    }
  }

  /** Conservation: every entry answered as successful took exactly one message out of the queue. */
  lemma {:induction false} DeletedCount(ms: seq<Stored>, handles: seq<Handle>)
    ensures |AfterDelete(ms, handles)| + CountTrue(DeleteFlags(ms, handles)) == |ms|
  {
    if handles != [] {
      DeletedCount(AfterDeleteOne(ms, handles[0]), handles[1..]);
    }
  }

  /**
   * The queue in memory that the receiver's tests and the stand use.
   */
  class FakeSqs {
    var messages: seq<Stored>
    var nextId: nat
    var nowMs: int
    var failNextDelete: bool
    var failNextReceive: bool

    constructor (nowMs: int)
      ensures messages == [] && nextId == 0 && this.nowMs == nowMs && !failNextDelete && !failNextReceive
    {
      messages, nextId := [], 0;
      this.nowMs := nowMs;
      failNextDelete, failNextReceive := false, false;
    }

    method Send(content: Content) returns (messageId: nat)
      modifies this`messages, this`nextId
      ensures messageId == old(nextId) && nextId == old(nextId) + 1
      ensures messages == old(messages) + [Stored(messageId, content, 0, 0, None)]
    {
      messageId := nextId;
      nextId := nextId + 1;
      messages := messages + [Stored(messageId, content, 0, 0, None)];
    }

    /** ReceiveMessage. A failed request changes nothing but the planted failure. */
    method Receive(max: nat, visibilitySeconds: nat) returns (r: Option<seq<Received>>)
      modifies this`messages, this`failNextReceive
      ensures old(failNextReceive) ==> r == None && messages == old(messages)
      ensures !old(failNextReceive) ==>
                && r == Some(HandedOut(old(messages), nowMs, max))
                && messages == AfterReceive(old(messages), nowMs, max, nowMs + visibilitySeconds * 1000)
      ensures !failNextReceive
    {
      if failNextReceive {
        failNextReceive := false;
        return None;
      }
      ghost var before := messages;
      var untilMs := nowMs + visibilitySeconds * 1000;
      var out: seq<Received> := [];
      var i := 0;
      while i < |messages|
        invariant 0 <= i <= |messages| == |before|
        invariant |out| <= max
        invariant messages[i..] == before[i..]
        invariant AfterReceive(before, nowMs, max, untilMs)
               == messages[..i] + AfterReceive(before[i..], nowMs, max - |out|, untilMs)
        invariant HandedOut(before, nowMs, max) == out + HandedOut(before[i..], nowMs, max - |out|)
        invariant !failNextReceive
      {
        ReceiveStep(messages, before, i, nowMs, max - |out|, untilMs, out);
        if |out| < max && messages[i].visibleAtMs <= nowMs {
          var m := Hidden(messages[i], untilMs);
          messages := messages[i := m];
          out := out + [Copy(m)];
        }
        i := i + 1;
      }
      assert before[i..] == [] && out + [] == out;
      r := Some(out);
    }

    /** DeleteMessageBatch: None stands for a failed request. */
    method DeleteBatch(handles: seq<Handle>) returns (r: Option<seq<bool>>)
      modifies this`messages, this`failNextDelete
      ensures old(failNextDelete) ==> r == None && messages == old(messages)
      ensures !old(failNextDelete) ==>
                && r == Some(DeleteFlags(old(messages), handles))
                && messages == AfterDelete(old(messages), handles)
      ensures !failNextDelete
    {
      if failNextDelete {
        failNextDelete := false;
        return None;
      }
      ghost var before := messages;
      var flags: seq<bool> := [];
      var n := 0;
      while n < |handles|
        invariant 0 <= n <= |handles| && |flags| == n
        invariant messages == AfterDelete(before, handles[..n])
        invariant flags == DeleteFlags(before, handles[..n])
        invariant !failNextDelete
      {
        DeleteInChunks(before, handles[..n], [handles[n]]);
        assert handles[..n] + [handles[n]] == handles[..n + 1];
        ghost var current := messages;
        var i := IndexOf(messages, handles[n]);
        flags := flags + [i < |messages|];
        if i < |messages| {
          messages := messages[..i] + messages[i + 1..];
        }
        assert messages == AfterDeleteOne(current, handles[n]);
        n := n + 1;
      }
      assert handles[..n] == handles;
      r := Some(flags);
    }

    method ChangeVisibility(h: Handle, seconds: nat) returns (ok: bool)
      modifies this`messages
      ensures messages == AfterChangeVisibility(old(messages), h, nowMs + seconds * 1000)
      ensures ok <==> exists i :: 0 <= i < |old(messages)| && old(messages)[i].handle == Some(h)
    {
      var i := IndexOf(messages, h);
      ok := i < |messages|;
      if ok {
        messages := messages[i := messages[i].(visibleAtMs := nowMs + seconds * 1000)];
      }
    }
  }
}
