/** The conversation list: the signed-in user's stored chat messages,
    newest first, grouped into one summary per thread, ordered newest first
    and capped. */
module Conversations {
  import opened Js

  /** A stored chat message row, as far as the grouping reads it.
      `createdAt` is the timestamp in milliseconds. */
  datatype ChatMessage = ChatMessage(
    threadId: Option<string>,
    content: Value,
    title: Option<string>,
    createdAt: int)

  datatype ConversationSummary = ConversationSummary(
    threadId: string,
    title: string,
    messageCount: nat,
    lastMessage: string,
    createdAt: int)

  datatype Response = Unauthorized | Listed(conversations: seq<ConversationSummary>)

  const DefaultThreadId: string := "assistant0-chat"
  const NewConversationPreview: string := "New conversation"
  const PreviewLength: nat := 100
  const MaxConversations: nat := 20

  /** `msg.threadId || 'assistant0-chat'` */
  function ThreadOf(m: ChatMessage): (t: string)
    ensures t != ""
    ensures m.threadId.Some? && m.threadId.value != "" ==> t == m.threadId.value
    ensures m.threadId.None? || m.threadId.value == "" ==> t == DefaultThreadId
  {
    if m.threadId.Some? && m.threadId.value != "" then m.threadId.value else DefaultThreadId
  }

  /** `msg.title || \`Chat ${date}\``, with the locale's date formatting as a parameter. */
  function TitleOf(m: ChatMessage, localeDate: int -> string): (title: string)
    ensures m.title.Some? && m.title.value != "" ==> title == m.title.value
    ensures m.title.None? || m.title.value == "" ==> title == "Chat " + localeDate(m.createdAt)
  {
    if m.title.Some? && m.title.value != "" then m.title.value else "Chat " + localeDate(m.createdAt)
  }

  // ---------------------------------------------------------------------
  // Preview

  /** `p?.text || p?.content` */
  predicate HasText(p: Value) {
    Truthy(Get(p, "text")) || Truthy(Get(p, "content"))
  }

  /** `parts.find(p => p?.text || p?.content)` */
  function FindTextPart(parts: seq<Value>): (r: Option<Value>)
    ensures r.Some? ==> HasText(r.value)
  {
    if parts == [] then None
    else if HasText(parts[0]) then Some(parts[0])
    else FindTextPart(parts[1..])
  }

  /** `find` gives the first part that has a text or content, and nothing
      exactly when no part has one. */
  lemma {:induction false} FindTextPartIsFirst(parts: seq<Value>)
    ensures FindTextPart(parts).None? <==> forall k :: 0 <= k < |parts| ==> !HasText(parts[k])
    ensures FindTextPart(parts).Some? ==>
      exists k :: 0 <= k < |parts| && parts[k] == FindTextPart(parts).value &&
                  forall j :: 0 <= j < k ==> !HasText(parts[j])
  {
    if parts != [] && !HasText(parts[0]) {
      var rest := parts[1..];
      FindTextPartIsFirst(rest);
      assert forall k :: 1 <= k < |parts| ==> parts[k] == rest[k - 1];
      if FindTextPart(rest).Some? {
        var k :| 0 <= k < |rest| && rest[k] == FindTextPart(rest).value &&
                 forall j :: 0 <= j < k ==> !HasText(rest[j]);
        assert parts[k + 1] == FindTextPart(parts).value;
      }
    }
  }

  /** The preview text of a stored message.  String content gives its first
      100 characters.  Content with a `parts` array gives the first 100
      characters of the text (else content) of the first part having one,
      or '' if no part has one.  When that value is not a string its
      `substring` throws, the error is swallowed, and the default stays.
      Any other content gives 'New conversation'. */
  function PreviewOf(content: Value): (r: string)
    ensures |r| <= PreviewLength
    ensures content.Str? ==>
      |r| == (if |content.s| <= PreviewLength then |content.s| else PreviewLength) &&
      r == content.s[..|r|]
    ensures !content.Str? && !Get(content, "parts").Arr? ==> r == NewConversationPreview
    ensures !content.Str? && Get(content, "parts").Arr? && FindTextPart(Get(content, "parts").items).None?
            ==> r == ""
  {
    if content.Str? then Take(content.s, PreviewLength)
    else
      var parts := Get(content, "parts");
      if parts.Arr? then
        match FindTextPart(parts.items)
        case None => ""
        case Some(p) =>
          var text := Or(Get(p, "text"), Get(p, "content"));
          if text.Str? then Take(text.s, PreviewLength) else NewConversationPreview
      else NewConversationPreview
  }

  /** `find` stops at the first part that has a text or content. */
  lemma {:induction false} FindTextPartAt(parts: seq<Value>, k: nat)
    requires k < |parts| && HasText(parts[k])
    requires forall j :: 0 <= j < k ==> !HasText(parts[j])
    ensures FindTextPart(parts) == Some(parts[k])
  {
    if k > 0 {
      assert !HasText(parts[0]);
      assert parts[1..][k - 1] == parts[k];
      FindTextPartAt(parts[1..], k - 1);
    }
  }

  /** The preview of parts content is the first 100 characters of the
      first text-carrying part's `text`, or of its `content` when the text
      is absent or empty. */
  lemma PreviewOfFirstTextPart(content: Value, k: nat)
    requires !content.Str? && Get(content, "parts").Arr?
    requires k < |Get(content, "parts").items|
    requires forall j :: 0 <= j < k ==> !HasText(Get(content, "parts").items[j])
    ensures var p := Get(content, "parts").items[k];
      && (Get(p, "text").Str? && Get(p, "text").s != "" ==> PreviewOf(content) == Take(Get(p, "text").s, PreviewLength))
      && (!Truthy(Get(p, "text")) && Get(p, "content").Str? && Get(p, "content").s != "" ==>
            PreviewOf(content) == Take(Get(p, "content").s, PreviewLength))
  {
    var p := Get(content, "parts").items[k];
    if HasText(p) {
      FindTextPartAt(Get(content, "parts").items, k);
    }
  }

  // ---------------------------------------------------------------------
  // Reference definitions of the grouping

  /** Thread ids in order of first appearance. */
  function Threads(msgs: seq<ChatMessage>): seq<string> {
    if msgs == [] then []
    else
      var earlier := Threads(msgs[..|msgs| - 1]);
      var t := ThreadOf(msgs[|msgs| - 1]);
      if t in earlier then earlier else earlier + [t]
  }

  /** Number of messages of thread `t`. */
  function Count(msgs: seq<ChatMessage>, t: string): nat {
    if msgs == [] then 0
    else Count(msgs[..|msgs| - 1], t) + (if ThreadOf(msgs[|msgs| - 1]) == t then 1 else 0)
  }

  /** Index of the first message of thread `t`. */
  function FirstIndex(msgs: seq<ChatMessage>, t: string): (k: nat)
    requires t in Threads(msgs)
    ensures k < |msgs|
  {
    var init := msgs[..|msgs| - 1];
    if t in Threads(init) then FirstIndex(init, t) else |msgs| - 1
  }

  /** The summary of thread `t`: title, preview and time of its first
      message, and its message count. */
  function Summarize(msgs: seq<ChatMessage>, t: string, localeDate: int -> string): ConversationSummary
    requires t in Threads(msgs)
  {
    var first := msgs[FirstIndex(msgs, t)];
    ConversationSummary(t, TitleOf(first, localeDate), Count(msgs, t), PreviewOf(first.content),
                        first.createdAt)
  }

  /** One summary per thread, in order of first appearance. */
  function Grouped(msgs: seq<ChatMessage>, localeDate: int -> string): (groups: seq<ConversationSummary>)
    ensures |groups| == |Threads(msgs)|
    ensures forall k :: 0 <= k < |groups| ==> groups[k] == Summarize(msgs, Threads(msgs)[k], localeDate)
  {
    seq(|Threads(msgs)|, k requires 0 <= k < |Threads(msgs)| => Summarize(msgs, Threads(msgs)[k], localeDate))
  }

  // ---------------------------------------------------------------------
  // The grouping loop

  /** The `for` loop over the messages and `Array.from(map.values())`. */
  method GroupByThread(msgs: seq<ChatMessage>, localeDate: int -> string)
    returns (groups: seq<ConversationSummary>)
    ensures groups == Grouped(msgs, localeDate)
  {
    var order: seq<string> := [];   // the map's insertion order
    var table: map<string, ConversationSummary> := map[];
    var i := 0;
    assert msgs[..0] == [];
    assert table == SummaryTable(msgs[..0], localeDate);
    while i < |msgs|
      invariant 0 <= i <= |msgs|
      invariant order == Threads(msgs[..i])
      invariant table == SummaryTable(msgs[..i], localeDate)
    {
      var msg := msgs[i];
      var threadId := ThreadOf(msg);
      ghost var before := table;
      if threadId !in table {
        table := table[threadId := ConversationSummary(threadId, TitleOf(msg, localeDate), 1,
                                                       PreviewOf(msg.content), msg.createdAt)];
        order := order + [threadId];
      } else {
        var s := table[threadId];
        table := table[threadId := s.(messageCount := s.messageCount + 1)];
      }
      assert table == AddMessage(before, msg, localeDate);
      assert msgs[..i + 1] == msgs[..i] + [msg];
      SummaryTableStep(msgs[..i], msg, localeDate);
      GroupStep(msgs[..i], msg);
      i := i + 1;
    }
    assert msgs[..i] == msgs;
    groups := seq(|order|, k requires 0 <= k < |order| => table[order[k]]);
    GroupedFromTable(msgs, localeDate);
  }

  /** Listing the table's summaries in first-appearance order gives `Grouped`. */
  lemma GroupedFromTable(msgs: seq<ChatMessage>, localeDate: int -> string)
    ensures var order := Threads(msgs);
      var table := SummaryTable(msgs, localeDate);
      seq(|order|, k requires 0 <= k < |order| => table[order[k]]) == Grouped(msgs, localeDate)
  {
  }

  /** The summaries keyed by thread id, as the loop's map holds them. */
  function SummaryTable(msgs: seq<ChatMessage>, localeDate: int -> string): (table: map<string, ConversationSummary>)
    ensures forall t :: t in table <==> t in Threads(msgs)
  {
    map t | t in Threads(msgs) :: Summarize(msgs, t, localeDate)
  }

  /** What one pass of the loop does to the map: a new thread gets a
      summary of this message with a count of one; a known thread's count
      is incremented. */
  function AddMessage(table: map<string, ConversationSummary>, m: ChatMessage, localeDate: int -> string)
    : map<string, ConversationSummary>
  {
    var t := ThreadOf(m);
    if t in table then table[t := table[t].(messageCount := table[t].messageCount + 1)]
    else table[t := ConversationSummary(t, TitleOf(m, localeDate), 1, PreviewOf(m.content), m.createdAt)]
  }

  lemma SummaryTableStep(seen: seq<ChatMessage>, m: ChatMessage, localeDate: int -> string)
    ensures SummaryTable(seen + [m], localeDate) == AddMessage(SummaryTable(seen, localeDate), m, localeDate)
  {
    var after := SummaryTable(seen + [m], localeDate);
    var expected := AddMessage(SummaryTable(seen, localeDate), m, localeDate);
    GroupStep(seen, m);
    forall u | u in after ensures u in expected && after[u] == expected[u] {
      SummarizeStep(seen, m, u, localeDate);
    }
    assert after.Keys == expected.Keys;
  }

  // ---------------------------------------------------------------------
  // Sorting and the handler

  /** `createdAt` never increases along the sequence. */
  predicate NewestFirst(s: seq<ConversationSummary>) {
    forall i, j :: 0 <= i < j < |s| ==> s[i].createdAt >= s[j].createdAt
  }

  /** Stable insertion of `x` before the first element not newer than it. */
  function Insert(x: ConversationSummary, s: seq<ConversationSummary>): (r: seq<ConversationSummary>)
    ensures multiset(r) == multiset(s) + multiset{x}
  {
    if s == [] || x.createdAt >= s[0].createdAt then [x] + s
    else
      assert s == [s[0]] + s[1..];
      [s[0]] + Insert(x, s[1..])
  }

  /** `.sort((a, b) => b.createdAt - a.createdAt)`: a stable sort, newest first. */
  function SortNewestFirst(s: seq<ConversationSummary>): (r: seq<ConversationSummary>)
    ensures multiset(r) == multiset(s)
  {
    if s == [] then [] else
      assert s == [s[0]] + s[1..];
      Insert(s[0], SortNewestFirst(s[1..]))
  }

  lemma {:induction false} InsertKeepsOrder(x: ConversationSummary, s: seq<ConversationSummary>)
    requires NewestFirst(s)
    ensures NewestFirst(Insert(x, s))
  {
    if !(s == [] || x.createdAt >= s[0].createdAt) {
      var rest := Insert(x, s[1..]);
      InsertKeepsOrder(x, s[1..]);
      NotNewerThanHead(x, s);
      var r := [s[0]] + rest;
      assert r == Insert(x, s);
      forall i, j | 0 <= i < j < |r| ensures r[i].createdAt >= r[j].createdAt {
        if i == 0 { assert r[j] == rest[j - 1]; }
        else { assert r[i] == rest[i - 1] && r[j] == rest[j - 1]; }
      }
    }
  }

  /** When `x` is older than the head of `s`, nothing inserted into the
      tail is newer than that head. */
  lemma NotNewerThanHead(x: ConversationSummary, s: seq<ConversationSummary>)
    requires NewestFirst(s) && s != [] && x.createdAt < s[0].createdAt
    ensures forall k :: 0 <= k < |Insert(x, s[1..])| ==> Insert(x, s[1..])[k].createdAt <= s[0].createdAt
  {
    var rest := Insert(x, s[1..]);
    forall k | 0 <= k < |rest| ensures rest[k].createdAt <= s[0].createdAt {
      var y := rest[k];
      assert y in multiset(rest);
      if y != x {
        assert y in multiset(s[1..]);
        var j :| 0 <= j < |s[1..]| && s[1..][j] == y;
        assert s[j + 1] == y;
      }
    }
  }

  /** The sort yields the same summaries, newest first. */
  lemma {:induction false} SortIsOrderedPermutation(s: seq<ConversationSummary>)
    ensures NewestFirst(SortNewestFirst(s))
    ensures multiset(SortNewestFirst(s)) == multiset(s)
    ensures |SortNewestFirst(s)| == |s|
  {
    if s != [] {
      SortIsOrderedPermutation(s[1..]);
      InsertKeepsOrder(s[0], SortNewestFirst(s[1..]));
    }
    assert |multiset(SortNewestFirst(s))| == |multiset(s)|;
  }

  /** No thread id occurs twice. */
  predicate DistinctThreads(s: seq<ConversationSummary>) {
    forall i, j :: 0 <= i < j < |s| ==> s[i].threadId != s[j].threadId
  }

  /** `GET /api/chat/conversations`: 401 without a signed-in user; otherwise
      the user's messages, newest first as the query returns them, grouped,
      sorted and capped. */
  method ListConversations(userId: Option<string>, allMessages: seq<ChatMessage>,
                           localeDate: int -> string)
    returns (resp: Response)
    ensures resp == Unauthorized <==> userId.None? || userId.value == ""
    ensures resp.Listed? ==>
      resp.conversations == Take(SortNewestFirst(Grouped(allMessages, localeDate)), MaxConversations)
    ensures resp.Listed? ==>
      && |resp.conversations| <= MaxConversations
      && NewestFirst(resp.conversations)
      && DistinctThreads(resp.conversations)
  {
    if userId.None? || userId.value == "" {
      return Unauthorized;
    }
    var groups := GroupByThread(allMessages, localeDate);
    var sorted := SortNewestFirst(groups);
    SortIsOrderedPermutation(groups);
    GroupedDistinct(allMessages, localeDate);
    PermutationKeepsDistinct(groups, sorted);
    resp := Listed(Take(sorted, MaxConversations));
  }

  // ---------------------------------------------------------------------
  // Properties of the grouping

  /** A thread is listed exactly when some message belongs to it. */
  lemma {:induction false} ThreadsMembership(msgs: seq<ChatMessage>, t: string)
    ensures t in Threads(msgs) <==> exists k :: 0 <= k < |msgs| && ThreadOf(msgs[k]) == t
  {
    if msgs != [] {
      var init := msgs[..|msgs| - 1];
      ThreadsMembership(init, t);
      if exists k :: 0 <= k < |init| && ThreadOf(init[k]) == t {
        var k :| 0 <= k < |init| && ThreadOf(init[k]) == t;
        assert msgs[k] == init[k];
      }
      if exists k :: 0 <= k < |msgs| && ThreadOf(msgs[k]) == t {
        var k :| 0 <= k < |msgs| && ThreadOf(msgs[k]) == t;
        if k < |init| { assert init[k] == msgs[k]; }
      }
    }
  }

  /** Each thread is listed once. */
  lemma {:induction false} ThreadsDistinct(msgs: seq<ChatMessage>)
    ensures forall i, j :: 0 <= i < j < |Threads(msgs)| ==> Threads(msgs)[i] != Threads(msgs)[j]
  {
    if msgs != [] {
      ThreadsDistinct(msgs[..|msgs| - 1]);
    }
  }

  /** A thread has messages exactly when it is listed. */
  lemma {:induction false} CountPositive(msgs: seq<ChatMessage>, t: string)
    ensures Count(msgs, t) > 0 <==> t in Threads(msgs)
  {
    if msgs != [] {
      CountPositive(msgs[..|msgs| - 1], t);
    }
  }

  /** The first message of a thread: earlier messages belong to other threads. */
  lemma {:induction false} FirstIndexIsFirst(msgs: seq<ChatMessage>, t: string)
    requires t in Threads(msgs)
    ensures ThreadOf(msgs[FirstIndex(msgs, t)]) == t
    ensures forall j :: 0 <= j < FirstIndex(msgs, t) ==> ThreadOf(msgs[j]) != t
  {
    var init := msgs[..|msgs| - 1];
    if t in Threads(init) {
      FirstIndexIsFirst(init, t);
    } else {
      ThreadsMembership(init, t);
      ThreadsMembership(msgs, t);
      assert forall j :: 0 <= j < |init| ==> init[j] == msgs[j];
    }
  }

  /** Sum of the counts of the threads `ts`. */
  function TotalCount(msgs: seq<ChatMessage>, ts: seq<string>): nat {
    if ts == [] then 0 else TotalCount(msgs, ts[..|ts| - 1]) + Count(msgs, ts[|ts| - 1])
  }

  /** One more message adds one to the total of any list of distinct
      threads that contains its thread, and nothing otherwise. */
  lemma {:induction false} TotalCountStep(init: seq<ChatMessage>, m: ChatMessage, ts: seq<string>)
    requires forall i, j :: 0 <= i < j < |ts| ==> ts[i] != ts[j]
    ensures TotalCount(init + [m], ts) ==
            TotalCount(init, ts) + (if ThreadOf(m) in ts then 1 else 0)
  {
    var msgs := init + [m];
    assert msgs[..|msgs| - 1] == init;
    if ts != [] {
      var front := ts[..|ts| - 1];
      TotalCountStep(init, m, front);
      assert ThreadOf(m) in ts <==> ThreadOf(m) in front || ThreadOf(m) == ts[|ts| - 1];
    }
  }

  /** The counts of all threads sum to the number of messages. */
  lemma {:induction false} CountsCoverAllMessages(msgs: seq<ChatMessage>)
    ensures TotalCount(msgs, Threads(msgs)) == |msgs|
  {
    if msgs != [] {
      var init := msgs[..|msgs| - 1];
      var m := msgs[|msgs| - 1];
      var t := ThreadOf(m);
      assert msgs == init + [m];
      CountsCoverAllMessages(init);
      ThreadsDistinct(init);
      TotalCountStep(init, m, Threads(init));
      if t !in Threads(init) {
        CountPositive(init, t);
        var ts := Threads(init) + [t];
        assert ts[..|ts| - 1] == Threads(init);
      }
    }
  }

  /** Sum of the message counts of summaries. */
  function SumMessageCounts(s: seq<ConversationSummary>): nat {
    if s == [] then 0 else SumMessageCounts(s[..|s| - 1]) + s[|s| - 1].messageCount
  }

  lemma {:induction false} SumMatchesTotal(msgs: seq<ChatMessage>, localeDate: int -> string, n: nat)
    requires n <= |Threads(msgs)|
    ensures SumMessageCounts(Grouped(msgs, localeDate)[..n]) == TotalCount(msgs, Threads(msgs)[..n])
  {
    if n > 0 {
      SumMatchesTotal(msgs, localeDate, n - 1);
      assert Grouped(msgs, localeDate)[..n][..n - 1] == Grouped(msgs, localeDate)[..n - 1];
      assert Threads(msgs)[..n][..n - 1] == Threads(msgs)[..n - 1];
    }
  }

  /** Before the cap, the grouped message counts sum to the number of
      messages: every message is counted in exactly one summary. */
  lemma GroupedCountsSumToTotal(msgs: seq<ChatMessage>, localeDate: int -> string)
    ensures SumMessageCounts(Grouped(msgs, localeDate)) == |msgs|
  {
    SumMatchesTotal(msgs, localeDate, |Threads(msgs)|);
    assert Grouped(msgs, localeDate)[..|Threads(msgs)|] == Grouped(msgs, localeDate);
    assert Threads(msgs)[..|Threads(msgs)|] == Threads(msgs);
    CountsCoverAllMessages(msgs);
  }

  /** Each summary counts exactly its thread's messages, and a message
      without a thread id is counted under the default thread. */
  lemma GroupedCountsPerThread(msgs: seq<ChatMessage>, localeDate: int -> string, k: nat)
    requires k < |Grouped(msgs, localeDate)|
    ensures var g := Grouped(msgs, localeDate)[k];
      g.messageCount == Count(msgs, g.threadId) && g.messageCount > 0
  {
    CountPositive(msgs, Threads(msgs)[k]);
  }

  /** The grouped summaries have distinct thread ids. */
  lemma GroupedDistinct(msgs: seq<ChatMessage>, localeDate: int -> string)
    ensures DistinctThreads(Grouped(msgs, localeDate))
  {
    ThreadsDistinct(msgs);
  }

  /** Reordering keeps thread ids distinct. */
  lemma PermutationKeepsDistinct(s: seq<ConversationSummary>, r: seq<ConversationSummary>)
    requires DistinctThreads(s) && multiset(r) == multiset(s)
    ensures DistinctThreads(r)
  {
    forall i, j | 0 <= i < j < |r| ensures r[i].threadId != r[j].threadId {
      assert r[i] in multiset(s) && r[j] in multiset(s);
      var a :| 0 <= a < |s| && s[a] == r[i];
      var b :| 0 <= b < |s| && s[b] == r[j];
      if r[i] == r[j] {
        OccursOnce(s, a);
        TwiceInSeq(r, i, j);
        assert false;
      }
    }
  }

  /** An element of a sequence with distinct thread ids occurs once. */
  lemma OccursOnce(s: seq<ConversationSummary>, a: nat)
    requires DistinctThreads(s) && a < |s|
    ensures multiset(s)[s[a]] == 1
  {
    assert s == s[..a] + [s[a]] + s[a + 1..];
    assert s[a] !in s[..a] by {
      forall k | 0 <= k < a ensures s[..a][k] != s[a] { assert s[k].threadId != s[a].threadId; }
    }
    assert s[a] !in s[a + 1..] by {
      forall k | a + 1 <= k < |s| ensures s[k] != s[a] {
        assert s[k].threadId != s[a].threadId;
      }
    }
  }

  lemma TwiceInSeq(r: seq<ConversationSummary>, i: nat, j: nat)
    requires i < j < |r| && r[i] == r[j]
    ensures multiset(r)[r[i]] >= 2
  {
    assert r == r[..i] + [r[i]] + r[i + 1..j] + [r[j]] + r[j + 1..];
  }

  /** Extending the messages by one: the thread list, first indices and
      counts. */
  lemma GroupStep(seen: seq<ChatMessage>, m: ChatMessage)
    ensures var msgs := seen + [m];
      && Threads(msgs) == (if ThreadOf(m) in Threads(seen) then Threads(seen) else Threads(seen) + [ThreadOf(m)])
      && (forall u :: Count(msgs, u) == Count(seen, u) + (if ThreadOf(m) == u then 1 else 0))
  {
    assert (seen + [m])[..|seen|] == seen;
  }

  lemma SummarizeStep(seen: seq<ChatMessage>, m: ChatMessage, u: string, localeDate: int -> string)
    requires u in Threads(seen + [m])
    ensures u in Threads(seen) ==>
      var s := Summarize(seen, u, localeDate);
      Summarize(seen + [m], u, localeDate) ==
        if ThreadOf(m) == u then s.(messageCount := s.messageCount + 1) else s
    ensures u !in Threads(seen) ==>
      u == ThreadOf(m) &&
      Summarize(seen + [m], u, localeDate) ==
        ConversationSummary(u, TitleOf(m, localeDate), 1, PreviewOf(m.content), m.createdAt)
  {
    var msgs := seen + [m];
    assert msgs[..|msgs| - 1] == seen;
    GroupStep(seen, m);
    if u in Threads(seen) {
      assert FirstIndex(msgs, u) == FirstIndex(seen, u);
      assert msgs[FirstIndex(seen, u)] == seen[FirstIndex(seen, u)];
    } else {
      CountPositive(seen, u);
    }
  }

  /** Given the newest-first input order, a summary's time and preview come
      from its thread's newest message. */
  lemma SummaryFromNewest(msgs: seq<ChatMessage>, localeDate: int -> string, k: nat)
    requires forall i, j :: 0 <= i < j < |msgs| ==> msgs[i].createdAt >= msgs[j].createdAt
    requires k < |Grouped(msgs, localeDate)|
    ensures var g := Grouped(msgs, localeDate)[k];
      forall j :: 0 <= j < |msgs| && ThreadOf(msgs[j]) == g.threadId ==> g.createdAt >= msgs[j].createdAt
  {
    var t := Threads(msgs)[k];
    FirstIndexIsFirst(msgs, t);
  }

  /** Threads are listed in the order of their first messages. */
  lemma {:induction false} ThreadsInFirstIndexOrder(msgs: seq<ChatMessage>)
    ensures forall i, j :: 0 <= i < j < |Threads(msgs)| ==>
      FirstIndex(msgs, Threads(msgs)[i]) < FirstIndex(msgs, Threads(msgs)[j])
  {
    if msgs != [] {
      var init := msgs[..|msgs| - 1];
      ThreadsInFirstIndexOrder(init);
      var ts := Threads(msgs);
      forall i, j | 0 <= i < j < |ts| ensures FirstIndex(msgs, ts[i]) < FirstIndex(msgs, ts[j]) {
        assert ts[i] in Threads(init);
        if j < |Threads(init)| {
          assert ts[j] == Threads(init)[j];
        }
      }
    }
  }

  /** With the messages newest first, the summaries already come out
      newest first. */
  lemma GroupedNewestFirst(msgs: seq<ChatMessage>, localeDate: int -> string)
    requires forall i, j :: 0 <= i < j < |msgs| ==> msgs[i].createdAt >= msgs[j].createdAt
    ensures NewestFirst(Grouped(msgs, localeDate))
  {
    ThreadsInFirstIndexOrder(msgs);
  }

  /** The stable sort leaves a newest-first sequence as it is. */
  lemma {:induction false} SortKeepsNewestFirst(s: seq<ConversationSummary>)
    requires NewestFirst(s)
    ensures SortNewestFirst(s) == s
  {
    if s != [] {
      SortKeepsNewestFirst(s[1..]);
      assert s == [s[0]] + s[1..];
    }
  }

  /** So, given the newest-first order of the query, the handler's sort
      changes nothing: the response is the first twenty summaries in order
      of their threads' newest messages. */
  lemma SortRedundantForStoredOrder(msgs: seq<ChatMessage>, localeDate: int -> string)
    requires forall i, j :: 0 <= i < j < |msgs| ==> msgs[i].createdAt >= msgs[j].createdAt
    ensures SortNewestFirst(Grouped(msgs, localeDate)) == Grouped(msgs, localeDate)
  {
    GroupedNewestFirst(msgs, localeDate);
    SortKeepsNewestFirst(Grouped(msgs, localeDate));
  }
}
