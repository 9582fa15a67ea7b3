/** The PAM conversation callback of src/ffi/pam.rs. */
module PamReplies {
  // Who owns the reply array and its strings on every way out. The C heap is a map of
  // live blocks; freeing a block that is not live is impossible by precondition.

  import opened Common

  const PAM_SUCCESS := 0
  const PAM_BUF_ERR := 5
  const PAM_CONV_ERR := 19
  const PAM_MAX_NUM_MSG := 32

  const PAM_PROMPT_ECHO_OFF := 1
  const PAM_PROMPT_ECHO_ON := 2
  const PAM_ERROR_MSG := 3
  const PAM_TEXT_INFO := 4

  // ----- The C heap -----

  /** A C string without its NUL, or an array of replies with their `resp`. */
  datatype Block = Text(bytes: seq<Byte>) | Replies(resp: seq<Option<nat>>)

  class Heap {
    var live: map<nat, Block>
    var next: nat

    predicate Valid()
      reads this
    {
      forall p | p in live :: p < next
    }

    /** calloc, or strdup, when it does not return null. */
    method Allocate(b: Block) returns (p: nat)
      requires Valid()
      modifies this
      ensures Valid() && p == old(next) && p !in old(live) && live == old(live)[p := b]
    {
      p := next;
      live, next := live[p := b], next + 1;
    }

    method Free(p: nat)
      requires Valid() && p in live
      modifies this
      ensures Valid() && live == old(live) - {p} && next == old(next)
    {
      live := live - {p};
    }
  }

  // ----- PamResponses -----

  /** The non-null pointers of an array. */
  function Pointers(resp: seq<Option<nat>>): set<nat> {
    set i | 0 <= i < |resp| && resp[i].Some? :: resp[i].value
  }

  /** Pairwise different strings, other than the array itself. */
  predicate Distinct(a: nat, resp: seq<Option<nat>>) {
    && a !in Pointers(resp)
    && forall i, j | 0 <= i < j < |resp| && resp[i].Some? && resp[j].Some? :: resp[i].value != resp[j].value
  }

  /** `live` is `others` and, besides, the array `a` and the strings it points
      to. */
  predicate Owns(live: map<nat, Block>, others: map<nat, Block>, a: nat, resp: seq<Option<nat>>) {
    && Distinct(a, resp)
    && a in live && live[a] == Replies(resp)
    && (forall p | p in Pointers(resp) :: p in live && live[p].Text?)
    && others.Keys !! {a} + Pointers(resp)
    && live.Keys == others.Keys + {a} + Pointers(resp)
    && (forall p | p in others :: live[p] == others[p])
  }

  class PamResponses {
    var ptr: Option<nat>
    const count: nat

    constructor (a: nat, n: nat)
      ensures ptr == Some(a) && count == n
    {
      ptr, count := Some(a), n;
    }

    /** `transfer_to`: PAM gets the array, and nothing is left to drop. */
    method TransferTo() returns (resp: Option<nat>)
      modifies this
      ensures resp == old(ptr) && ptr == None
    {
      resp := ptr;
      ptr := None;
    }

    /** `drop`: every string, then the array, each exactly once. */
    method Drop(heap: Heap, ghost others: map<nat, Block>, ghost resp: seq<Option<nat>>)
      requires heap.Valid()
      requires ptr.Some? ==> |resp| == count && Owns(heap.live, others, ptr.value, resp)
      modifies this, heap
      ensures heap.Valid() && ptr == old(ptr)
      ensures heap.live == if ptr.Some? then others else old(heap.live)
    {
      if ptr == None {
        return;
      }
      var a := ptr.value;
      ghost var left := resp;
      for index := 0 to count
        invariant heap.Valid() && ptr == Some(a)
        invariant |left| == count && Owns(heap.live, others, a, left)
        invariant forall i | 0 <= i < index :: left[i] == None
      {
        var entries := heap.live[a].resp;
        if entries[index].Some? {
          FreeingOwned(heap.live, others, a, left, index);
          heap.Free(entries[index].value);
          heap.live := heap.live[a := Replies(entries[index := None])];
          left := left[index := None];
        }
      }
      assert Pointers(left) == {};
      heap.Free(a);
      assert heap.live == others;
    }
  }

  lemma FreeingOwned(live: map<nat, Block>, others: map<nat, Block>, a: nat, resp: seq<Option<nat>>, k: nat)
    requires Owns(live, others, a, resp) && k < |resp| && resp[k].Some?
    ensures resp[k].value in live
    ensures Pointers(resp[k := None]) == Pointers(resp) - {resp[k].value}
    ensures Owns((live - {resp[k].value})[a := Replies(resp[k := None])], others, a, resp[k := None])
  {
    var left := resp[k := None];
    forall p | p in Pointers(resp) - {resp[k].value} ensures p in Pointers(left) {
      var i :| 0 <= i < |resp| && resp[i] == Some(p);
      assert left[i] == Some(p);
    }
    forall p | p in Pointers(left) ensures p in Pointers(resp) && p != resp[k].value {
      var i :| 0 <= i < |left| && left[i] == Some(p);
      assert resp[i] == Some(p) && i != k;
    }
    assert resp[k].value in Pointers(resp);
  }

  lemma StoringOwned(live: map<nat, Block>, others: map<nat, Block>, a: nat, resp: seq<Option<nat>>, k: nat, p: nat, b: seq<Byte>)
    requires Owns(live, others, a, resp) && k < |resp| && resp[k] == None && p !in live
    ensures Pointers(resp[k := Some(p)]) == Pointers(resp) + {p}
    ensures Owns(live[p := Text(b)][a := Replies(resp[k := Some(p)])], others, a, resp[k := Some(p)])
  {
    var more := resp[k := Some(p)];
    forall q | q in Pointers(resp) + {p} ensures q in Pointers(more) {
      if q == p {
        assert more[k] == Some(p);
      } else {
        var i :| 0 <= i < |resp| && resp[i] == Some(q);
        assert more[i] == Some(q);
      }
    }
    forall q | q in Pointers(more) ensures q in Pointers(resp) + {p} {
      var i :| 0 <= i < |more| && more[i] == Some(q);
      if i != k {
        assert resp[i] == Some(q);
      }
    }
    forall i | 0 <= i < |resp| && resp[i].Some? ensures resp[i].value != p {
      assert resp[i].value in Pointers(resp);
    }
  }

  // ----- pam_conv_process -----

  /** What a message pointer leads to; BadText is not valid UTF-8. */
  datatype Message = NullRequest | NullText | BadText | Message(style: int)

  /** What the conversation's callback does with a message, and whether strdup
      would fail. */
  datatype Reply = Fine(answer: seq<Byte>) | PamFailure(code: int) | OtherFailure | Panic

  datatype Turn = Turn(reply: Reply, dupFails: bool)

  predicate IsPrompt(m: Message) {
    m.Message? && (m.style == PAM_PROMPT_ECHO_ON || m.style == PAM_PROMPT_ECHO_OFF)
  }

  predicate IsNote(m: Message) {
    m.Message? && (m.style == PAM_ERROR_MSG || m.style == PAM_TEXT_INFO)
  }

  /** The code this message ends the conversation with, if it does. */
  function Failure(m: Message, t: Turn): Option<int> {
    if !IsPrompt(m) && !IsNote(m) then Some(PAM_CONV_ERR)
    else
      match t.reply
      case PamFailure(code) => Some(code)
      case OtherFailure => Some(PAM_CONV_ERR)
      case Panic => Some(PAM_CONV_ERR)
      case Fine(_) => if IsPrompt(m) && t.dupFails then Some(PAM_BUF_ERR) else None
  }

  /** The first message that fails decides. */
  function FirstFailure(msgs: seq<Message>, turns: seq<Turn>): Option<int>
    requires |msgs| == |turns|
  {
    if msgs == [] then None
    else
      var before := FirstFailure(msgs[..|msgs| - 1], turns[..|msgs| - 1]);
      if before.Some? then before else Failure(msgs[|msgs| - 1], turns[|msgs| - 1])
  }

  lemma {:induction false} FailureComesFirst(msgs: seq<Message>, turns: seq<Turn>, k: nat, n: nat)
    requires |msgs| == |turns| && k < n <= |msgs|
    requires FirstFailure(msgs[..k], turns[..k]) == None && Failure(msgs[k], turns[k]).Some?
    ensures FirstFailure(msgs[..n], turns[..n]) == Failure(msgs[k], turns[k])
  {
    assert msgs[..n][..n - 1] == msgs[..n - 1] && turns[..n][..n - 1] == turns[..n - 1];
    if k + 1 < n {
      FailureComesFirst(msgs, turns, k, n - 1);
    }
  }

  /** The text a C string has when these bytes and a NUL are in memory: up to the first
      NUL. */
  predicate IsText(text: seq<Byte>, bytes: seq<Byte>) {
    text <= bytes && 0 !in text && (|text| == |bytes| || bytes[|text|] == 0)
  }

  /** What strdup copies. */
  function Truncate(bytes: seq<Byte>): (text: seq<Byte>)
    ensures IsText(text, bytes)
  {
    if bytes == [] || bytes[0] == 0 then [] else [bytes[0]] + Truncate(bytes[1..])
  }

  /** There is one such text, and it is all of the bytes if none is a NUL. */
  lemma TextIsUnique(a: seq<Byte>, b: seq<Byte>, bytes: seq<Byte>)
    requires IsText(a, bytes) && IsText(b, bytes)
    ensures a == b && (0 !in bytes ==> a == bytes)
  {
    assert forall i | 0 <= i < |a| :: bytes[i] == a[i] != 0;
    assert forall i | 0 <= i < |b| :: bytes[i] == b[i] != 0;
    assert |a| == |b|;
    assert 0 !in bytes ==> |a| == |bytes|;
  }

  /** The array's first `n` entries answer the prompts among the messages, and
      the others are null. */
  predicate Answers(live: map<nat, Block>, resp: seq<Option<nat>>, msgs: seq<Message>, turns: seq<Turn>, n: nat)
    requires n <= |resp| == |msgs| == |turns|
  {
    && (forall i | 0 <= i < n && IsPrompt(msgs[i]) ::
          resp[i].Some? && resp[i].value in live && turns[i].reply.Fine?
          && live[resp[i].value].Text? && IsText(live[resp[i].value].bytes, turns[i].reply.answer))
    && (forall i | 0 <= i < |resp| && (i >= n || !IsPrompt(msgs[i])) :: resp[i] == None)
  }

  /** The body of the message loop up to the reply array: a code to fail with, or
      the string a prompt is answered with. */
  method Respond(m: Message, t: Turn) returns (failure: Option<int>, text: Option<seq<Byte>>)
    ensures failure == Failure(m, t)
    ensures failure == None ==>
              if IsPrompt(m) then text.Some? && IsText(text.value, t.reply.answer) else text == None
  {
    text := None;
    match m
    case NullRequest => return Some(PAM_CONV_ERR), text;
    case NullText => return Some(PAM_CONV_ERR), text;
    case BadText => return Some(PAM_CONV_ERR), text;
    case Message(style) =>
      if style == PAM_PROMPT_ECHO_ON || style == PAM_PROMPT_ECHO_OFF {
        match t.reply
        case PamFailure(code) => return Some(code), text;
        case OtherFailure => return Some(PAM_CONV_ERR), text;
        case Panic => return Some(PAM_CONV_ERR), text;
        case Fine(answer) =>
          if t.dupFails {
            return Some(PAM_BUF_ERR), text;
          }
          NulEndsTheAnswer(answer);
          return None, Some(Truncate(answer + [0]));
      } else if style == PAM_ERROR_MSG || style == PAM_TEXT_INFO {
        match t.reply
        case PamFailure(code) => return Some(code), text;
        case OtherFailure => return Some(PAM_CONV_ERR), text;
        case Panic => return Some(PAM_CONV_ERR), text;
        case Fine(_) => return None, text;
      } else {
        return Some(PAM_CONV_ERR), text;
      }
  }

  lemma {:induction false} NulEndsTheAnswer(answer: seq<Byte>)
    ensures Truncate(answer + [0]) == Truncate(answer)
  {
    if answer != [] {
      assert (answer + [0])[1..] == answer[1..] + [0];
      NulEndsTheAnswer(answer[1..]);
    }
  }

  /** strdup, and the pointer into the array. */
  method Store(heap: Heap, ghost others: map<nat, Block>, a: nat, ghost r0: seq<Option<nat>>,
               ghost msgs: seq<Message>, ghost turns: seq<Turn>, i: nat, text: seq<Byte>)
    returns (ghost r: seq<Option<nat>>)
    requires heap.Valid() && Owns(heap.live, others, a, r0)
    requires i < |r0| == |msgs| == |turns| && Answers(heap.live, r0, msgs, turns, i)
    requires IsPrompt(msgs[i]) && turns[i].reply.Fine? && IsText(text, turns[i].reply.answer)
    modifies heap
    ensures heap.Valid() && |r| == |r0| && Owns(heap.live, others, a, r)
    ensures Answers(heap.live, r, msgs, turns, i + 1)
  {
    StoringOwned(heap.live, others, a, r0, i, heap.next, text);
    var dup := heap.Allocate(Text(text));
    heap.live := heap.live[a := Replies(heap.live[a].resp[i := Some(dup)])];
    r := r0[i := Some(dup)];
    forall j | 0 <= j < i && IsPrompt(msgs[j])
      ensures heap.live[r[j].value].Text? && IsText(heap.live[r[j].value].bytes, turns[j].reply.answer)
    {
      assert r0[j].value in Pointers(r0);
    }
  }

  /** One turn of the message loop. */
  method ReplyTo(heap: Heap, ghost others: map<nat, Block>, a: nat, ghost r0: seq<Option<nat>>,
                 msgs: seq<Message>, turns: seq<Turn>, i: nat)
    returns (failure: Option<int>, ghost r: seq<Option<nat>>)
    requires heap.Valid() && Owns(heap.live, others, a, r0)
    requires i < |r0| == |msgs| == |turns| && Answers(heap.live, r0, msgs, turns, i)
    modifies heap
    ensures heap.Valid() && |r| == |r0| && Owns(heap.live, others, a, r)
    ensures failure == Failure(msgs[i], turns[i])
    ensures failure == None ==> Answers(heap.live, r, msgs, turns, i + 1)
  {
    r := r0;
    var text;
    failure, text := Respond(msgs[i], turns[i]);
    if failure == None && text.Some? {
      r := Store(heap, others, a, r, msgs, turns, i, text.value);
    }
  }

  /** The message loop. */
  method ReplyToAll(heap: Heap, ghost others: map<nat, Block>, a: nat, ghost r0: seq<Option<nat>>,
                    msgs: seq<Message>, turns: seq<Turn>)
    returns (failure: Option<int>, ghost r: seq<Option<nat>>)
    requires heap.Valid() && Owns(heap.live, others, a, r0)
    requires |r0| == |msgs| == |turns| && forall i | 0 <= i < |r0| :: r0[i] == None
    modifies heap
    ensures heap.Valid() && |r| == |r0| && Owns(heap.live, others, a, r)
    ensures failure == FirstFailure(msgs, turns)
    ensures failure == None ==> Answers(heap.live, r, msgs, turns, |msgs|)
  {
    r := r0;
    for i := 0 to |msgs|
      invariant heap.Valid() && |r| == |msgs| && Owns(heap.live, others, a, r)
      invariant Answers(heap.live, r, msgs, turns, i)
      invariant FirstFailure(msgs[..i], turns[..i]) == None
    {
      failure, r := ReplyTo(heap, others, a, r, msgs, turns, i);
      if failure.Some? {
        FailureComesFirst(msgs, turns, i, |msgs|);
        assert msgs[..|msgs|] == msgs && turns[..|msgs|] == turns;
        return;
      }
      assert msgs[..i + 1][..i] == msgs[..i] && turns[..i + 1][..i] == turns[..i];
    }
    assert msgs[..|msgs|] == msgs && turns[..|msgs|] == turns;
    failure := None;
  }

  /** How a conversation ends: with the whole array handed over, or with a code, a
      null pointer and the heap as it was. */
  predicate Conversed(numMsg: int, msgs: seq<Message>, turns: seq<Turn>, arrayFails: bool,
                      others: map<nat, Block>, live: map<nat, Block>, code: int, resp: Option<nat>)
    requires |turns| == |msgs| == numMsg
  {
    if arrayFails then code == 5 && resp == None && live == others
    else match FirstFailure(msgs, turns) {
      case Some(c) => code == c && resp == None && live == others
      case None =>
        && code == 0 && resp.Some? && resp.value !in others
        && resp.value in live && live[resp.value].Replies?
        && var r := live[resp.value].resp;
        && |r| == numMsg && Owns(live, others, resp.value, r) && Answers(live, r, msgs, turns, numMsg)
    }
  }

  /** The callback and its panic guard. `resp0` is what `*resp` held before. */
  method Converse(numMsg: int, msgs: seq<Message>, turns: seq<Turn>, argsNull: bool, arrayFails: bool,
                  heap: Heap, resp0: Option<nat>)
    returns (code: int, resp: Option<nat>)
    requires heap.Valid()
    requires |turns| == |msgs| && (0 < numMsg ==> |msgs| == numMsg)
    modifies heap
    ensures heap.Valid()
    ensures if numMsg <= 0 || numMsg > 32 || argsNull
            then code == 19 && resp == resp0 && heap.live == old(heap.live)
            else Conversed(numMsg, msgs, turns, arrayFails, old(heap.live), heap.live, code, resp)
  {
    if numMsg <= 0 || numMsg > PAM_MAX_NUM_MSG || argsNull {
      return PAM_CONV_ERR, resp0;
    }
    resp := None;
    if arrayFails {
      return PAM_BUF_ERR, resp;
    }
    ghost var others := heap.live;
    ghost var r: seq<Option<nat>> := seq(numMsg, _ => None);
    var a := heap.Allocate(Replies(seq(numMsg, _ => None)));
    var replies := new PamResponses(a, numMsg);
    assert Pointers(r) == {};
    var failure;
    failure, r := ReplyToAll(heap, others, a, r, msgs, turns);
    if failure.Some? {
      replies.Drop(heap, others, r);
      return failure.value, resp;
    }
    resp := replies.TransferTo();
    return PAM_SUCCESS, resp;
  }

  // ----- The codes and entries in numbers -----

  /** A conversation that came to message `i` without a failure. */
  predicate Reached(msgs: seq<Message>, turns: seq<Turn>, i: nat)
    requires |msgs| == |turns|
  {
    i < |msgs| && FirstFailure(msgs[..i], turns[..i]) == None
  }

  /** The code of each kind of failure, at the first message that has it. */
  lemma CodesInNumbers(numMsg: int, msgs: seq<Message>, turns: seq<Turn>,
                       others: map<nat, Block>, live: map<nat, Block>, code: int, resp: Option<nat>, i: nat)
    requires |turns| == |msgs| == numMsg && Reached(msgs, turns, i)
    requires Conversed(numMsg, msgs, turns, false, others, live, code, resp)
    ensures !msgs[i].Message? ==> code == 19
    ensures msgs[i].Message? && msgs[i].style !in {1, 2, 3, 4} ==> code == 19
    ensures msgs[i].Message? && msgs[i].style in {1, 2, 3, 4} ==>
              match turns[i].reply
              case PamFailure(c) => code == c
              case OtherFailure => code == 19
              case Panic => code == 19
              case Fine(_) => msgs[i].style in {1, 2} && turns[i].dupFails ==> code == 5
  {
    if Failure(msgs[i], turns[i]).Some? {
      FailureComesFirst(msgs, turns, i, numMsg);
      assert msgs[..numMsg] == msgs && turns[..numMsg] == turns;
    }
  }

  /** Nothing else is a failure. */
  lemma {:induction false} FineIsReached(msgs: seq<Message>, turns: seq<Turn>, i: nat)
    requires |turns| == |msgs| && i <= |msgs|
    requires forall j | 0 <= j < i ::
               && msgs[j].Message? && msgs[j].style in {1, 2, 3, 4}
               && turns[j].reply.Fine? && (msgs[j].style in {1, 2} ==> !turns[j].dupFails)
    ensures FirstFailure(msgs[..i], turns[..i]) == None
  {
    if i > 0 {
      FineIsReached(msgs, turns, i - 1);
      assert msgs[..i][..i - 1] == msgs[..i - 1] && turns[..i][..i - 1] == turns[..i - 1];
    }
  }

  /** A successful conversation: the styles with a prompt have the answer's text, the
      others nothing. */
  lemma EntriesInNumbers(numMsg: int, msgs: seq<Message>, turns: seq<Turn>,
                         others: map<nat, Block>, live: map<nat, Block>, code: int, resp: Option<nat>, i: nat)
    requires |turns| == |msgs| == numMsg && i < numMsg
    requires Conversed(numMsg, msgs, turns, false, others, live, code, resp) && resp.Some?
    ensures code == 0 && msgs[i].Message? && msgs[i].style in {1, 2, 3, 4} && turns[i].reply.Fine?
    ensures var r := live[resp.value].resp;
            if msgs[i].style in {1, 2} then
              && r[i].Some? && r[i].value in live && live[r[i].value].Text?
              && IsText(live[r[i].value].bytes, turns[i].reply.answer)
              && (0 !in turns[i].reply.answer ==> live[r[i].value].bytes == turns[i].reply.answer)
            else r[i] == None
  {
    assert msgs[..numMsg] == msgs && turns[..numMsg] == turns;
    NoFailureMeansFine(msgs, turns, i, numMsg);
    if msgs[i].style in {1, 2} {
      var text := live[live[resp.value].resp[i].value].bytes;
      TextIsUnique(text, text, turns[i].reply.answer);
    }
  }

  lemma {:induction false} NoFailureMeansFine(msgs: seq<Message>, turns: seq<Turn>, i: nat, n: nat)
    requires |turns| == |msgs| && i < n <= |msgs| && FirstFailure(msgs[..n], turns[..n]) == None
    ensures Failure(msgs[i], turns[i]) == None
    decreases n
  {
    assert msgs[..n][..n - 1] == msgs[..n - 1] && turns[..n][..n - 1] == turns[..n - 1];
    if i < n - 1 {
      NoFailureMeansFine(msgs, turns, i, n - 1);
    }
  }
}
