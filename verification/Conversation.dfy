/** Conversations with a model: tool calls answered in place, and compaction that keeps them so. */
module Conversation {
  import opened Wrappers

  datatype Block =
    | Text(text: string)
    | ToolCall(id: string, name: string)
    | ToolResult(callId: string, content: string)

  datatype Role = User | Assistant | Tool

  datatype Message = Message(role: Role, content: seq<Block>)

  function CallIds(content: seq<Block>): seq<string> {
    if content == [] then []
    else
      var last := content[|content| - 1];
      CallIds(content[..|content| - 1]) + (if last.ToolCall? then [last.id] else [])
  }

  function ResultIds(content: seq<Block>): seq<string> {
    if content == [] then []
    else
      var last := content[|content| - 1];
      ResultIds(content[..|content| - 1]) + (if last.ToolResult? then [last.callId] else [])
  }

  function Calls(m: Message): seq<string> {
    CallIds(m.content)
  }

  function Results(m: Message): seq<string> {
    ResultIds(m.content)
  }

  /** The message answers the calls of the one before it: all of them, in order. */
  predicate Answers(m: Message, before: Message) {
    m.role == Tool && Results(m) == Calls(before)
  }

  /** A message has calls or results but not both, its calls are answered next, its results answer calls. */
  predicate InOrder(ms: seq<Message>, i: nat)
    requires i < |ms|
  {
    && (Calls(ms[i]) == [] || Results(ms[i]) == [])
    && (Calls(ms[i]) != [] ==> i + 1 < |ms| && Answers(ms[i + 1], ms[i]))
    && (Results(ms[i]) != [] ==> 0 < i && Answers(ms[i], ms[i - 1]))
  }

  /** What a model accepts: calls are answered by the next message, and only calls are. */
  predicate WellFormed(ms: seq<Message>) {
    forall i :: 0 <= i < |ms| ==> InOrder(ms, i)
  }

  /** Nothing but text. */
  predicate Plain(m: Message) {
    Calls(m) == [] && Results(m) == []
  }

  function Said(role: Role, text: string): Message {
    Message(role, [Text(text)])
  }

  lemma {:induction false} SaidIsPlain(role: Role, text: string)
    ensures Plain(Said(role, text))
  {
    NoCallsLeft([Text(text)]);
    NoResultsLeft([Text(text)]);
  }

  // ---------------------------------------------------------- growing in turns

  lemma {:induction false} AppendPlain(ms: seq<Message>, m: Message)
    requires WellFormed(ms) && Plain(m)
    ensures WellFormed(ms + [m])
  {
    var next := ms + [m];
    forall i | 0 <= i < |next|
      ensures InOrder(next, i)
    {
      assert i < |ms| ==> InOrder(ms, i);
    }
  }

  lemma {:induction false} AppendAnswered(ms: seq<Message>, call: Message, answer: Message)
    requires WellFormed(ms) && Results(call) == [] && Calls(answer) == [] && Calls(call) != []
    requires Answers(answer, call)
    ensures WellFormed(ms + [call, answer])
  {
    var next := ms + [call, answer];
    assert next[|ms|] == call && next[|ms| + 1] == answer;
    forall i | 0 <= i < |next|
      ensures InOrder(next, i)
    {
      assert i < |ms| ==> InOrder(ms, i);
      assert |ms| > 0 ==> InOrder(ms, |ms| - 1);
    }
  }

  /** A conversation that ends in calls is not what a model accepts. */
  lemma {:induction false} OpenCallsDangle(ms: seq<Message>, call: Message)
    requires Calls(call) != []
    ensures !WellFormed(ms + [call])
  {
    var next := ms + [call];
    assert next[|ms|] == call && !InOrder(next, |ms|);
  }

  // ------------------------------------------------------------- orphaned results

  function SeqSet(ids: seq<string>): set<string> {
    set i | 0 <= i < |ids| :: ids[i]
  }

  predicate HasOrphan(content: seq<Block>, known: set<string>) {
    exists i :: 0 <= i < |content| && content[i].ToolResult? && content[i].callId !in known
  }

  function WithoutOrphans(content: seq<Block>, known: set<string>): (r: seq<Block>)
    ensures |r| == |content|
    ensures forall i :: 0 <= i < |content| ==>
      r[i] == if content[i].ToolResult? && content[i].callId !in known
              then Text("[Earlier tool result]\n" + content[i].content) else content[i]
  {
    if content == [] then []
    else
      var b := content[|content| - 1];
      WithoutOrphans(content[..|content| - 1], known) +
        [if b.ToolResult? && b.callId !in known then Text("[Earlier tool result]\n" + b.content) else b]
  }

  function SanitizeOne(m: Message, known: set<string>): Message {
    if HasOrphan(m.content, known) then Message(m.role, WithoutOrphans(m.content, known)) else m
  }

  /** Results whose calls are not in the tail become text. */
  function Sanitized(tail: seq<Message>, known: set<string>): (r: seq<Message>)
    ensures |r| == |tail|
    decreases |tail|
  {
    if tail == [] then []
    else
      var seen := known + SeqSet(Calls(tail[0]));
      [SanitizeOne(tail[0], seen)] + Sanitized(tail[1..], seen)
  }

  function KnownAfter(tail: seq<Message>, known: set<string>): set<string> {
    if tail == [] then known else KnownAfter(tail[..|tail| - 1], known) + SeqSet(Calls(tail[|tail| - 1]))
  }

  lemma {:induction false} SanitizedSnoc(tail: seq<Message>, m: Message, known: set<string>)
    ensures Sanitized(tail + [m], known) ==
      Sanitized(tail, known) + [SanitizeOne(m, KnownAfter(tail + [m], known))]
    decreases |tail|
  {
    assert (tail + [m])[..|tail|] == tail;
    if tail != [] {
      var seen := known + SeqSet(Calls(tail[0]));
      SanitizedSnoc(tail[1..], m, seen);
      assert (tail + [m])[1..] == tail[1..] + [m];
      KnownAfterFirst(tail + [m], known);
    } else {
      assert [m][1..] == [] && [m][..0] == [];
    }
  }

  lemma {:induction false} KnownAfterFirst(tail: seq<Message>, known: set<string>)
    requires tail != []
    ensures KnownAfter(tail, known) == KnownAfter(tail[1..], known + SeqSet(Calls(tail[0])))
    decreases |tail|
  {
    if |tail| > 1 {
      KnownAfterFirst(tail[..|tail| - 1], known);
      assert tail[..|tail| - 1][1..] == tail[1..][..|tail| - 2];
    } else {
      assert tail[..0] == [] && tail[1..] == [];
    }
  }

  /** The set of known call ids, threaded through the messages. */
  method SanitizeTail(tail: seq<Message>) returns (r: seq<Message>)
    ensures r == Sanitized(tail, {})
  {
    var known: set<string> := {};
    r := [];
    assert tail[..0] == [];
    for i := 0 to |tail|
      invariant known == KnownAfter(tail[..i], {}) && r == Sanitized(tail[..i], {})
    {
      assert tail[..i + 1] == tail[..i] + [tail[i]] && (tail[..i] + [tail[i]])[..i] == tail[..i];
      SanitizedSnoc(tail[..i], tail[i], {});
      known := known + SeqSet(Calls(tail[i]));
      r := r + [SanitizeOne(tail[i], known)];
    }
    assert tail[..|tail|] == tail;
  }

  lemma {:induction false} ResultIdOf(content: seq<Block>, i: nat)
    requires i < |content| && content[i].ToolResult?
    ensures content[i].callId in ResultIds(content)
  {
    if i < |content| - 1 {
      ResultIdOf(content[..|content| - 1], i);
    }
  }

  lemma {:induction false} NoResultsLeft(content: seq<Block>)
    requires forall i :: 0 <= i < |content| ==> !content[i].ToolResult?
    ensures ResultIds(content) == []
  {
    if content != [] {
      NoResultsLeft(content[..|content| - 1]);
    }
  }

  lemma {:induction false} NoCallsLeft(content: seq<Block>)
    requires forall i :: 0 <= i < |content| ==> !content[i].ToolCall?
    ensures CallIds(content) == []
  {
    if content != [] {
      NoCallsLeft(content[..|content| - 1]);
    }
  }

  lemma {:induction false} CallIdsOf(content: seq<Block>, i: nat)
    requires i < |content| && content[i].ToolCall?
    ensures CallIds(content) != []
  {
    if i < |content| - 1 {
      CallIdsOf(content[..|content| - 1], i);
    }
  }

  /** A message whose results are all known is left alone. */
  lemma {:induction false} KnownIsKept(m: Message, known: set<string>)
    requires SeqSet(Results(m)) <= known
    ensures SanitizeOne(m, known) == m
  {
    forall i | 0 <= i < |m.content| && m.content[i].ToolResult?
      ensures m.content[i].callId in known
    {
      ResultIdOf(m.content, i);
    }
  }

  /** A message of results to calls that are gone becomes text altogether. */
  lemma {:induction false} UnknownBecomesPlain(m: Message)
    requires Calls(m) == []
    ensures Plain(SanitizeOne(m, {}))
  {
    var s := SanitizeOne(m, {});
    forall i | 0 <= i < |s.content|
      ensures !s.content[i].ToolCall? && !s.content[i].ToolResult?
    {
      if m.content[i].ToolCall? {
        CallIdsOf(m.content, i);
      }
    }
    NoResultsLeft(s.content);
    NoCallsLeft(s.content);
  }

  /** Beyond its first message the tail of a well-formed conversation has no orphans. */
  lemma {:induction false} RestIsKept(ms: seq<Message>, k: nat, known: set<string>)
    requires WellFormed(ms) && 0 < k <= |ms| && SeqSet(Calls(ms[k - 1])) <= known
    ensures Sanitized(ms[k..], known) == ms[k..]
    decreases |ms| - k
  {
    if k < |ms| {
      var seen := known + SeqSet(Calls(ms[k]));
      assert InOrder(ms, k);
      KnownIsKept(ms[k], seen);
      RestIsKept(ms, k + 1, seen);
      assert ms[k..][1..] == ms[k + 1..];
    }
  }

  /** Only the first message of a tail can change, and only if it answered what was cut away. */
  lemma {:induction false} SanitizedTailForm(ms: seq<Message>, k: nat)
    requires WellFormed(ms) && k < |ms|
    ensures Sanitized(ms[k..], {}) == [if Results(ms[k]) == [] then ms[k] else SanitizeOne(ms[k], {})] + ms[k + 1..]
    ensures Results(ms[k]) != [] ==> Plain(SanitizeOne(ms[k], {}))
  {
    var seen := {} + SeqSet(Calls(ms[k]));
    assert ms[k..][1..] == ms[k + 1..] && ms[k..][0] == ms[k];
    RestIsKept(ms, k + 1, seen);
    assert InOrder(ms, k);
    if Results(ms[k]) == [] {
      KnownIsKept(ms[k], seen);
    } else {
      UnknownBecomesPlain(ms[k]);
      assert seen == {};
    }
  }

  lemma {:induction false} TailIsWellFormed(ms: seq<Message>, k: nat, summary: Message, first: Message)
    requires WellFormed(ms) && k < |ms| && Plain(summary)
    requires if Results(ms[k]) == [] then first == ms[k] else Plain(first)
    ensures WellFormed([summary, first] + ms[k + 1..])
  {
    var next := [summary, first] + ms[k + 1..];
    assert next[0] == summary && next[1] == first;
    forall i | 0 <= i < |next|
      ensures InOrder(next, i)
    {
      assert InOrder(ms, k);
      if i >= 1 {
        assert InOrder(ms, k + i - 1);
        assert i >= 2 ==> next[i] == ms[k + i - 1];
        assert i >= 3 ==> next[i - 1] == ms[k + i - 2];
        assert i + 1 < |next| ==> next[i + 1] == ms[k + i];
      }
    }
  }

  /** Compaction makes a well-formed conversation of a well-formed one, wherever it cuts. */
  lemma {:induction false} CompactedIsWellFormed(ms: seq<Message>, k: nat, summary: Message)
    requires WellFormed(ms) && k < |ms| && Plain(summary)
    ensures WellFormed([summary] + Sanitized(ms[k..], {}))
  {
    SanitizedTailForm(ms, k);
    var first := if Results(ms[k]) == [] then ms[k] else SanitizeOne(ms[k], {});
    TailIsWellFormed(ms, k, summary, first);
    assert [summary] + Sanitized(ms[k..], {}) == [summary, first] + ms[k + 1..];
  }

  /** How many messages are kept verbatim. */
  function Keep(keepRecent: int): nat {
    if keepRecent < 2 then 2 else keepRecent
  }

  /** A conversation is compacted if it is long enough, and a summary came back that says something. */
  predicate Compacts(ms: seq<Message>, keepRecent: int, summary: Option<string>) {
    |ms| > Keep(keepRecent) + 2 && summary.Some? && summary.value != ""
  }

  /** Compaction with the summary that the model gives, if it gives one. */
  method Compact(ms: seq<Message>, keepRecent: int, summary: Option<string>) returns (r: seq<Message>, compacted: bool)
    ensures compacted <==> Compacts(ms, keepRecent, summary)
    ensures compacted <==> |ms| > 4 && |ms| > keepRecent + 2 && summary.Some? && summary.value != ""
    ensures !compacted ==> r == ms
    ensures compacted ==> |r| == (if keepRecent < 2 then 3 else keepRecent + 1) == Keep(keepRecent) + 1
    ensures compacted ==> r[0] == Said(User, summary.value)
    ensures WellFormed(ms) ==> WellFormed(r)
    ensures compacted && WellFormed(ms) ==> r[2..] == ms[|ms| - Keep(keepRecent) + 1..]
  {
    var keep := Keep(keepRecent);
    if |ms| <= keep + 2 {
      return ms, false;
    }
    var tail := ms[|ms| - keep..];
    if summary.None? || summary.value == "" {
      return ms, false;
    }
    var sanitized := SanitizeTail(tail);
    r, compacted := [Said(User, summary.value)] + sanitized, true;
    SaidIsPlain(User, summary.value);
    if WellFormed(ms) {
      CompactedIsWellFormed(ms, |ms| - keep, Said(User, summary.value));
      SanitizedTailForm(ms, |ms| - keep);
    }
  }
}
