/** `backend/app/context/retention.py`: a bounded, well-formed memory of a tool-calling conversation. */
module Retention {
  import opened Wrappers
  import T = Tokens
  import opened Prefixes

  datatype ToolCall = ToolCall(id: string, name: string, arguments: string)
  datatype ToolExecutionResult = ToolExecutionResult(toolCallId: string, name: string, ok: bool, content: string)

  datatype Message =
    | SystemMessage(content: string)
    | UserMessage(content: string)
    | AssistantMessage(content: string, toolCalls: seq<ToolCall>)
    | ToolMessage(toolCallId: string, content: string)

  datatype Group = Group(assistant: Message, results: seq<Message>)

  /** One completed turn as `add_group` receives it. */
  datatype Turn = Turn(assistant: Message, calls: seq<ToolCall>, results: seq<ToolExecutionResult>)

  datatype RetentionError = NotAToolCallMessage | CallsDoNotMatch | ResultsDoNotMatch

  datatype Verdict = Kept | TooLarge | Mutation

  /** The structured form of a result is the JSON encoder's business; the rest only measures it. */
  type Encoder = ToolExecutionResult -> string

  datatype Settings = Settings(maxRetained: nat, maxSingle: int, maxPerTurn: int) {
    predicate Valid() { 1 <= maxRetained <= 4 && maxSingle >= 128 && maxPerTurn >= maxSingle }
  }

  const OMITTED: string :=
    "[DevFlow omitted this tool result from the Agent context because the per-turn result budget is exhausted; use a scoped read/search command.]"

  // ----- well-formed conversations

  predicate Answers(calls: seq<ToolCall>, messages: seq<Message>) {
    |messages| == |calls| && forall i :: 0 <= i < |calls| ==> messages[i].ToolMessage? && messages[i].toolCallId == calls[i].id
  }

  /** Every tool call is answered at once, in order, and no tool result stands alone. */
  predicate WellFormed(messages: seq<Message>) {
    messages == [] ||
    match messages[0]
    case ToolMessage(_, _) => false
    case AssistantMessage(_, calls) =>
      |messages| > |calls| && Answers(calls, messages[1..1 + |calls|]) && WellFormed(messages[1 + |calls|..])
    case _ => WellFormed(messages[1..])
  }

  lemma {:induction false} WellFormedConcat(a: seq<Message>, b: seq<Message>)
    requires WellFormed(a)
    ensures WellFormed(a + b) <==> WellFormed(b)
    decreases |a|
  {
    if a == [] {
      assert a + b == b;
    } else {
      var n := match a[0] case AssistantMessage(_, calls) => 1 + |calls| case _ => 1;
      WellFormedConcat(a[n..], b);
      assert (a + b)[n..] == a[n..] + b;
      assert (a + b)[1..n] == a[1..n];
    }
  }

  // ----- what a turn becomes

  function CallIds(calls: seq<ToolCall>): seq<string> { seq(|calls|, i requires 0 <= i < |calls| => calls[i].id) }

  function ResultIds(results: seq<ToolExecutionResult>): seq<string> {
    seq(|results|, i requires 0 <= i < |results| => results[i].toolCallId)
  }

  predicate Accepted(t: Turn) {
    && t.assistant.AssistantMessage? && t.assistant.toolCalls != []
    && CallIds(t.calls) == CallIds(t.assistant.toolCalls) && ResultIds(t.results) == CallIds(t.calls)
  }

  function Limit(encode: Encoder, s: Settings, result: ToolExecutionResult, remaining: int): int {
    var envelope := T.BillableTokenEstimate(encode(result.(content := "")));
    var room := if remaining - envelope < 0 then 0 else remaining - envelope;
    if s.maxSingle < room then s.maxSingle else room
  }

  ghost function LongestPreview(content: string, limit: int, k: nat): (n: nat)
    requires k <= |content|
    ensures n <= k
  {
    if k == 0 || Previews(content, k, limit) then k else LongestPreview(content, limit, k - 1)
  }

  /** The content that is kept of one result, and whether anything was cut. */
  ghost function KeptContent(encode: Encoder, s: Settings, result: ToolExecutionResult, remaining: int): (string, bool) {
    var limit := Limit(encode, s, result, remaining);
    if limit < 128 then (OMITTED, true)
    else if T.BillableTokenEstimate(result.content) > limit then
      (result.content[..LongestPreview(result.content, limit, |result.content|)] + SUFFIX, true)
    else (result.content, false)
  }

  ghost function BoundedMessage(encode: Encoder, s: Settings, result: ToolExecutionResult, remaining: int): Message {
    ToolMessage(result.toolCallId, encode(result.(content := KeptContent(encode, s, result, remaining).0)))
  }

  function Spend(remaining: int, m: Message): int {
    var left := remaining - T.BillableTokenEstimate(m.content);
    if left < 0 then 0 else left
  }

  ghost function BoundedMessages(encode: Encoder, s: Settings, results: seq<ToolExecutionResult>, remaining: int): (ms: seq<Message>)
    ensures |ms| == |results|
  {
    if results == [] then [] else
      var m := BoundedMessage(encode, s, results[0], remaining);
      [m] + BoundedMessages(encode, s, results[1..], Spend(remaining, m))
  }

  ghost function Truncations(encode: Encoder, s: Settings, results: seq<ToolExecutionResult>, remaining: int): nat {
    if results == [] then 0 else
      (if KeptContent(encode, s, results[0], remaining).1 then 1 else 0) +
      Truncations(encode, s, results[1..], Spend(remaining, BoundedMessage(encode, s, results[0], remaining)))
  }

  function TokensOf(messages: seq<Message>): int {
    if messages == [] then 0 else TokensOf(messages[..|messages| - 1]) + T.BillableTokenEstimate(messages[|messages| - 1].content)
  }

  predicate IsMutation(t: Turn)
    requires |t.results| == |t.calls|
  {
    exists i :: 0 <= i < |t.calls| && t.calls[i].name in {"write_file", "apply_patch"} && t.results[i].ok
  }

  ghost function Judge(encode: Encoder, s: Settings, t: Turn): Verdict {
    if TokensOf(BoundedMessages(encode, s, t.results, s.maxPerTurn)) > s.maxPerTurn then TooLarge
    else if |t.results| == |t.calls| && IsMutation(t) then Mutation
    else Kept
  }

  ghost function GroupOf(encode: Encoder, s: Settings, t: Turn): Group {
    Group(t.assistant, BoundedMessages(encode, s, t.results, s.maxPerTurn))
  }

  // ----- what a history becomes

  ghost function KeptGroups(encode: Encoder, s: Settings, history: seq<Turn>): seq<Group> {
    if history == [] then [] else
      KeptGroups(encode, s, history[..|history| - 1]) +
      if Judge(encode, s, history[|history| - 1]) == Kept then [GroupOf(encode, s, history[|history| - 1])] else []
  }

  ghost function CountOf(encode: Encoder, s: Settings, history: seq<Turn>, v: Verdict): nat {
    if history == [] then 0 else
      CountOf(encode, s, history[..|history| - 1], v) + if Judge(encode, s, history[|history| - 1]) == v then 1 else 0
  }

  function Newest<X>(xs: seq<X>, n: nat): seq<X> {
    if |xs| <= n then xs else xs[|xs| - n..]
  }

  function Flatten(groups: seq<Group>): seq<Message> {
    if groups == [] then [] else
      Flatten(groups[..|groups| - 1]) + [groups[|groups| - 1].assistant] + groups[|groups| - 1].results
  }

  /** What `messages` must return after this history. */
  ghost function Conversation(base: seq<Message>, encode: Encoder, s: Settings, history: seq<Turn>, note: string): seq<Message> {
    var groups := KeptGroups(encode, s, history);
    base + (if |history| > |Newest(groups, s.maxRetained)| then [UserMessage(note)] else []) + Flatten(Newest(groups, s.maxRetained))
  }

  lemma {:induction false} GroupsAndCompactionsAddUp(encode: Encoder, s: Settings, history: seq<Turn>)
    ensures |KeptGroups(encode, s, history)| == CountOf(encode, s, history, Kept)
    ensures CountOf(encode, s, history, Kept) + CountOf(encode, s, history, TooLarge) + CountOf(encode, s, history, Mutation) == |history|
  {
    if history != [] { GroupsAndCompactionsAddUp(encode, s, history[..|history| - 1]); }
  }

  /** A kept group comes from an accepted turn, answers its calls, fits the turn budget and replays no write. */
  ghost predicate SoundGroup(encode: Encoder, s: Settings, history: seq<Turn>, group: Group) {
    && group.assistant.AssistantMessage? && Answers(group.assistant.toolCalls, group.results)
    && TokensOf(group.results) <= s.maxPerTurn
    && exists t :: t in history && group == GroupOf(encode, s, t) && |t.results| == |t.calls| && !IsMutation(t)
  }

  lemma {:induction false} BoundedMessagesAnswer(encode: Encoder, s: Settings, results: seq<ToolExecutionResult>, remaining: int, i: nat)
    requires i < |results|
    ensures BoundedMessages(encode, s, results, remaining)[i].ToolMessage?
    ensures BoundedMessages(encode, s, results, remaining)[i].toolCallId == results[i].toolCallId
    decreases i
  {
    if i > 0 {
      BoundedMessagesAnswer(encode, s, results[1..], Spend(remaining, BoundedMessage(encode, s, results[0], remaining)), i - 1);
    }
  }

  lemma GroupIsSound(encode: Encoder, s: Settings, t: Turn)
    requires Accepted(t) && Judge(encode, s, t) == Kept
    ensures SoundGroup(encode, s, [t], GroupOf(encode, s, t))
  {
    assert |t.results| == |ResultIds(t.results)| == |CallIds(t.calls)| == |t.calls|;
    assert |t.calls| == |CallIds(t.assistant.toolCalls)| == |t.assistant.toolCalls|;
    forall i | 0 <= i < |t.results|
      ensures var m := BoundedMessages(encode, s, t.results, s.maxPerTurn)[i];
              m.ToolMessage? && m.toolCallId == t.assistant.toolCalls[i].id
    {
      BoundedMessagesAnswer(encode, s, t.results, s.maxPerTurn, i);
      assert ResultIds(t.results)[i] == CallIds(t.calls)[i] == CallIds(t.assistant.toolCalls)[i];
    }
    assert t in [t];
  }

  lemma {:induction false} KeptGroupsAreSound(encode: Encoder, s: Settings, history: seq<Turn>)
    requires forall t | t in history :: Accepted(t)
    ensures forall g | g in KeptGroups(encode, s, history) :: SoundGroup(encode, s, history, g)
  {
    if history != [] {
      var n := |history| - 1;
      KeptGroupsAreSound(encode, s, history[..n]);
      assert history[n] in history;
      if Judge(encode, s, history[n]) == Kept { GroupIsSound(encode, s, history[n]); }
      forall g | g in KeptGroups(encode, s, history) ensures SoundGroup(encode, s, history, g) {
        if g in KeptGroups(encode, s, history[..n]) {
          var t :| t in history[..n] && g == GroupOf(encode, s, t) && |t.results| == |t.calls| && !IsMutation(t);
          assert t in history;
        } else {
          assert g == GroupOf(encode, s, history[n]);
        }
      }
    }
  }

  predicate Answered(group: Group) {
    group.assistant.AssistantMessage? && Answers(group.assistant.toolCalls, group.results)
  }

  lemma GroupIsWellFormed(group: Group)
    requires Answered(group)
    ensures WellFormed([group.assistant] + group.results)
  {
    var ms, n := [group.assistant] + group.results, |group.results|;
    assert ms[0] == group.assistant && ms[1..1 + n] == group.results && ms[1 + n..] == [];
    assert WellFormed([]);
  }

  lemma {:induction false} FlattenLast(groups: seq<Group>)
    requires groups != []
    ensures var n := |groups| - 1; Flatten(groups) == Flatten(groups[..n]) + ([groups[n].assistant] + groups[n].results)
  {
  }

  lemma {:induction false} FlattenStep(groups: seq<Group>, i: nat)
    requires i < |groups|
    ensures Flatten(groups[..i + 1]) == Flatten(groups[..i]) + [groups[i].assistant] + groups[i].results
  {
    assert groups[..i + 1][..i] == groups[..i];
    FlattenLast(groups[..i + 1]);
  }

  lemma JoinsOn(front: seq<Message>, flat: seq<Message>, g: Group)
    ensures front + (flat + [g.assistant] + g.results) == front + flat + [g.assistant] + g.results
  {
  }

  lemma {:induction false} FlattenIsWellFormed(groups: seq<Group>)
    requires forall i :: 0 <= i < |groups| ==> Answered(groups[i])
    ensures WellFormed(Flatten(groups))
  {
    if groups == [] {
      assert WellFormed([]);
    } else {
      var n := |groups| - 1;
      var front, last := Flatten(groups[..n]), [groups[n].assistant] + groups[n].results;
      FlattenIsWellFormed(groups[..n]);
      GroupIsWellFormed(groups[n]);
      WellFormedConcat(front, last);
      FlattenLast(groups);
    }
  }

  /** After any sequence of turns the provider sees a valid conversation. */
  lemma {:induction false} ConversationIsWellFormed(base: seq<Message>, encode: Encoder, s: Settings, history: seq<Turn>, note: string)
    requires WellFormed(base) && forall t | t in history :: Accepted(t)
    ensures WellFormed(Conversation(base, encode, s, history, note))
  {
    var groups := KeptGroups(encode, s, history);
    KeptGroupsAreSound(encode, s, history);
    var shown := Newest(groups, s.maxRetained);
    forall i | 0 <= i < |shown| ensures Answered(shown[i]) {
      assert shown[i] in groups;
      assert SoundGroup(encode, s, history, shown[i]);
    }
    FlattenIsWellFormed(shown);
    var middle := if |history| > |shown| then [UserMessage(note)] else [];
    assert WellFormed(middle) by { assert [UserMessage(note)][1..] == []; }
    WellFormedConcat(base, middle);
    WellFormedConcat(base + middle, Flatten(shown));
  }

  /** The conversation ends in the newest groups, at most K of them, and accounts for every turn ever added. */
  lemma {:induction false} ShownAndCompactedAddUp(encode: Encoder, s: Settings, history: seq<Turn>)
    ensures var groups := KeptGroups(encode, s, history);
            var excess := if |groups| > s.maxRetained then |groups| - s.maxRetained else 0;
            && |Newest(groups, s.maxRetained)| <= s.maxRetained
            && |Newest(groups, s.maxRetained)| + excess + CountOf(encode, s, history, TooLarge) + CountOf(encode, s, history, Mutation) == |history|
  {
    GroupsAndCompactionsAddUp(encode, s, history);
  }

  /** Groups stand one behind the other, each as its assistant message and its results. */
  lemma {:induction false} FlattenIsInOrder(front: seq<Group>, g: Group, back: seq<Group>)
    ensures Flatten(front + [g] + back) == Flatten(front) + [g.assistant] + g.results + Flatten(back)
    decreases |back|
  {
    var all := front + [g] + back;
    if back == [] {
      assert all[..|all| - 1] == front;
    } else {
      var n := |back| - 1;
      FlattenIsInOrder(front, g, back[..n]);
      assert all[..|all| - 1] == front + [g] + back[..n];
      FlattenLast(all);
      FlattenLast(back);
    }
  }

  /** `shown` are the newest of the groups kept, as many as allowed, and the messages end in them. */
  ghost predicate EndsInNewest(
    base: seq<Message>, encode: Encoder, s: Settings, history: seq<Turn>, note: string, messages: seq<Message>,
    older: seq<Group>, shown: seq<Group>)
  {
    && KeptGroups(encode, s, history) == older + shown
    && |shown| <= s.maxRetained && (older != [] ==> |shown| == s.maxRetained)
    && messages == base + (if |shown| < |history| then [UserMessage(note)] else []) + Flatten(shown)
  }

  ghost predicate ShowsNewest(
    base: seq<Message>, encode: Encoder, s: Settings, history: seq<Turn>, note: string, messages: seq<Message>)
  {
    exists older, shown :: EndsInNewest(base, encode, s, history, note, messages, older, shown)
  }

  /** The conversation shows the newest groups, never an older one in place of a newer. */
  lemma {:induction false} ConversationEndsInNewest(base: seq<Message>, encode: Encoder, s: Settings, history: seq<Turn>, note: string)
    ensures ShowsNewest(base, encode, s, history, note, Conversation(base, encode, s, history, note))
  {
    var groups := KeptGroups(encode, s, history);
    var n := |groups| - if |groups| <= s.maxRetained then |groups| else s.maxRetained;
    assert groups == groups[..n] + groups[n..];
    assert Newest(groups, s.maxRetained) == groups[n..];
    GroupsAndCompactionsAddUp(encode, s, history);
    assert EndsInNewest(base, encode, s, history, note, Conversation(base, encode, s, history, note), groups[..n], groups[n..]);
  }

  lemma {:induction false} ConversationHolds(base: seq<Message>, encode: Encoder, s: Settings, history: seq<Turn>, note: string)
    requires forall t | t in history :: Accepted(t)
    ensures ShowsNewest(base, encode, s, history, note, Conversation(base, encode, s, history, note))
    ensures WellFormed(base) ==> WellFormed(Conversation(base, encode, s, history, note))
  {
    ConversationEndsInNewest(base, encode, s, history, note);
    if WellFormed(base) { ConversationIsWellFormed(base, encode, s, history, note); }
  }

  /** Right behind a turn that was kept, the provider sees its call and its results last. */
  lemma {:induction false} LatestTurnIsShownLast(
    base: seq<Message>, encode: Encoder, s: Settings, history: seq<Turn>, t: Turn, note: string)
    requires s.Valid() && Judge(encode, s, t) == Kept
    ensures exists before ::
              Conversation(base, encode, s, history + [t], note) ==
              before + [t.assistant] + BoundedMessages(encode, s, t.results, s.maxPerTurn)
  {
    var groups := KeptGroups(encode, s, history + [t]);
    assert (history + [t])[..|history|] == history;
    var g := GroupOf(encode, s, t);
    assert groups[|groups| - 1] == g;
    var shown := Newest(groups, s.maxRetained);
    assert shown[|shown| - 1] == g;
    FlattenLast(shown);
    var c := Conversation(base, encode, s, history + [t], note);
    var before := c[..|c| - |g.results| - 1];
    assert c == before + [t.assistant] + g.results;
  }

  // ----- what is kept of a turn's results

  ghost function LeftOf(budget: int, spent: int): int { if budget > spent then budget - spent else 0 }

  lemma {:induction false} TokensOfFirst(m: Message, rest: seq<Message>)
    ensures TokensOf([m] + rest) == T.BillableTokenEstimate(m.content) + TokensOf(rest)
    decreases |rest|
  {
    if rest == [] {
      assert [m] + rest == [m] && [m][..0] == [];
    } else {
      var n := |rest| - 1;
      TokensOfFirst(m, rest[..n]);
      assert ([m] + rest)[..n + 1] == [m] + rest[..n];
    }
  }

  /** Each result is bounded by what the results before it have left of the turn's budget. */
  lemma {:induction false} ResultIsBoundedInTurn(encode: Encoder, s: Settings, results: seq<ToolExecutionResult>, budget: int, i: nat)
    requires i < |results|
    ensures var ms := BoundedMessages(encode, s, results, budget);
            i < |ms| && (budget >= 0 ==> ms[i] == BoundedMessage(encode, s, results[i], LeftOf(budget, TokensOf(ms[..i]))))
    decreases i
  {
    var ms := BoundedMessages(encode, s, results, budget);
    if i == 0 {
      assert ms[..0] == [];
    } else {
      var left := Spend(budget, ms[0]);
      ResultIsBoundedInTurn(encode, s, results[1..], left, i - 1);
      assert ms[1..] == BoundedMessages(encode, s, results[1..], left);
      assert ms[..i] == [ms[0]] + ms[1..][..i - 1];
      TokensOfFirst(ms[0], ms[1..][..i - 1]);
      EstimatesAreNonNegative(ms[1..][..i - 1]);
    }
  }

  lemma {:induction false} EstimatesAreNonNegative(ms: seq<Message>)
    ensures TokensOf(ms) >= 0
  {
    if ms != [] { EstimatesAreNonNegative(ms[..|ms| - 1]); }
  }

  /** What stays of a result under `limit` tokens for its content. */
  ghost predicate KeepsContent(content: string, limit: int, kept: string, cut: bool) {
    if limit < 128 then kept == OMITTED && cut
    else if T.BillableTokenEstimate(content) <= limit then kept == content && !cut
    else
      cut && exists n: nat :: IsLongestPreview(content, limit, n) && kept == content[..n] + SUFFIX
  }

  ghost predicate IsLongestPreview(content: string, limit: int, n: nat) {
    && n <= |content| && Previews(content, n, limit)
    && forall k :: n < k <= |content| ==> !Previews(content, k, limit)
  }

  lemma MarkAloneFits(content: string, limit: int)
    requires limit >= 128
    ensures Previews(content, 0, limit)
  {
    SuffixIsSmall();
    assert content[..0] + SUFFIX == SUFFIX;
  }

  lemma {:induction false} LongestPreviewHolds(content: string, limit: int, k: nat)
    requires k <= |content| && limit >= 128 && forall j :: k < j <= |content| ==> !Previews(content, j, limit)
    ensures IsLongestPreview(content, limit, LongestPreview(content, limit, k))
  {
    if k == 0 {
      MarkAloneFits(content, limit);
    } else if !Previews(content, k, limit) {
      LongestPreviewHolds(content, limit, k - 1);
    }
  }

  /** The limit is the smaller of the bound for one result and what is left beside the envelope. */
  lemma {:induction false} ContentIsKeptWithin(encode: Encoder, s: Settings, result: ToolExecutionResult, remaining: int)
    requires s.Valid()
    ensures var limit := Limit(encode, s, result, remaining);
            var room := LeftOf(remaining, T.BillableTokenEstimate(encode(result.(content := ""))));
            && limit <= s.maxSingle && limit <= room && (limit == s.maxSingle || limit == room)
            && KeepsContent(result.content, limit, KeptContent(encode, s, result, remaining).0, KeptContent(encode, s, result, remaining).1)
  {
    var limit := Limit(encode, s, result, remaining);
    if limit >= 128 && T.BillableTokenEstimate(result.content) > limit {
      LongestPreviewHolds(result.content, limit, |result.content|);
    }
  }

  /** A turn is compacted exactly when its bounded results exceed the turn budget or it wrote to the worktree. */
  lemma {:induction false} CompactedIff(encode: Encoder, s: Settings, t: Turn)
    requires Accepted(t)
    ensures Judge(encode, s, t) != Kept <==>
            || TokensOf(BoundedMessages(encode, s, t.results, s.maxPerTurn)) > s.maxPerTurn
            || exists i :: 0 <= i < |t.calls| && i < |t.results| && t.results[i].ok
                           && (t.calls[i].name == "write_file" || t.calls[i].name == "apply_patch")
  {
    assert |t.results| == |ResultIds(t.results)| == |CallIds(t.calls)| == |t.calls|;
  }

  lemma {:induction false} LongestPreviewIsLongest(content: string, limit: int, k: nat, n: nat)
    requires n <= k <= |content| && (n > 0 ==> Previews(content, n, limit))
    requires forall j :: n < j <= k ==> !Previews(content, j, limit)
    ensures LongestPreview(content, limit, k) == n
  {
    if k > n { LongestPreviewIsLongest(content, limit, k - 1, n); }
  }

  /** Calls with their results, as `zip` pairs them. */
  function Paired(calls: seq<ToolCall>, results: seq<ToolExecutionResult>): seq<(ToolCall, ToolExecutionResult)> {
    var n := if |calls| < |results| then |calls| else |results|;
    seq(n, i requires 0 <= i < n && n <= |calls| && n <= |results| => (calls[i], results[i]))
  }

  lemma PairedInOrder(calls: seq<ToolCall>, results: seq<ToolExecutionResult>, i: nat)
    ensures i < |Paired(calls, results)| <==> i < |calls| && i < |results|
    ensures i < |Paired(calls, results)| ==> Paired(calls, results)[i] == (calls[i], results[i])
  {
  }

  /** Groups and counters are those of the history. */
  ghost predicate Tracks(encode: Encoder, s: Settings, history: seq<Turn>, groups: seq<Group>, mutations: nat, tooLarge: nat) {
    && (forall t | t in history :: Accepted(t))
    && groups == KeptGroups(encode, s, history)
    && mutations == CountOf(encode, s, history, Mutation)
    && tooLarge == CountOf(encode, s, history, TooLarge)
  }

  /** One more turn adds one group, or one compaction of its kind. */
  lemma {:induction false} TrackStep(
    encode: Encoder, s: Settings, history: seq<Turn>, groups: seq<Group>, mutations: nat, tooLarge: nat, t: Turn)
    requires Tracks(encode, s, history, groups, mutations, tooLarge) && Accepted(t)
    ensures match Judge(encode, s, t)
            case Kept => Tracks(encode, s, history + [t], groups + [GroupOf(encode, s, t)], mutations, tooLarge)
            case Mutation => Tracks(encode, s, history + [t], groups, mutations + 1, tooLarge)
            case TooLarge => Tracks(encode, s, history + [t], groups, mutations, tooLarge + 1)
  {
    assert (history + [t])[..|history|] == history;
  }

  class AgentContextRetention {
    const base: seq<Message>
    const settings: Settings
    const encode: Encoder
    /** Renders the working state gathered from everything observed. */
    const summarize: seq<(ToolCall, ToolExecutionResult)> -> string
    var groups: seq<Group>
    var compactedMutations: nat
    var compactedResults: nat
    var truncations: nat
    var observed: seq<(ToolCall, ToolExecutionResult)>
    ghost var history: seq<Turn>

    ghost predicate Valid()
      reads this
    {
      settings.Valid() && Tracks(encode, settings, history, groups, compactedMutations, compactedResults)
    }

    constructor (base: seq<Message>, settings: Settings, encode: Encoder, summarize: seq<(ToolCall, ToolExecutionResult)> -> string)
      requires settings.Valid()
      ensures Valid() && history == [] && truncations == 0 && observed == []
      ensures this.base == base && this.settings == settings && this.encode == encode && this.summarize == summarize
    {
      this.base, this.settings, this.encode, this.summarize := base, settings, encode, summarize;
      groups, compactedMutations, compactedResults, truncations, observed, history := [], 0, 0, 0, [], [];
    }

    /** The checks of `__init__`; nothing is built when they fail. */
    static method Create(base: seq<Message>, settings: Settings, encode: Encoder,
                         summarize: seq<(ToolCall, ToolExecutionResult)> -> string)
      returns (r: Option<AgentContextRetention>)
      ensures r.Some? <==> settings.Valid()
      ensures r.Some? ==> fresh(r.value) && r.value.Valid() && r.value.history == [] && r.value.base == base
      ensures r.Some? ==> r.value.settings == settings && r.value.encode == encode && r.value.summarize == summarize
    {
      if !(1 <= settings.maxRetained <= 4) { return None; }
      if settings.maxSingle < 128 { return None; }
      if settings.maxPerTurn < settings.maxSingle { return None; }
      var retention := new AgentContextRetention(base, settings, encode, summarize);
      return Some(retention);
    }

    /** `compacted_group_count`: what is shown and what is compacted is all there ever was. */
    method CompactedGroupCount() returns (n: nat)
      requires Valid()
      ensures n + (if |groups| < settings.maxRetained then |groups| else settings.maxRetained) == |history|
    {
      GroupsAndCompactionsAddUp(encode, settings, history);
      n := compactedMutations + compactedResults +
        if |groups| > settings.maxRetained then |groups| - settings.maxRetained else 0;
    }

    /** `_bounded_tool_result_message`. */
    method BoundedToolResultMessage(result: ToolExecutionResult, remaining: int) returns (m: Message)
      modifies this`truncations
      ensures m == BoundedMessage(encode, settings, result, remaining)
      ensures truncations == old(truncations) + if KeptContent(encode, settings, result, remaining).1 then 1 else 0
    {
      var envelope := T.BillableTokenEstimate(encode(result.(content := "")));
      var room := if remaining - envelope < 0 then 0 else remaining - envelope;
      var limit := if settings.maxSingle < room then settings.maxSingle else room;
      if limit < 128 {
        truncations := truncations + 1;
        return ToolMessage(result.toolCallId, encode(result.(content := OMITTED)));
      }
      var kept := result.content;
      if T.BillableTokenEstimate(result.content) > limit {
        ghost var n;
        kept, n := BoundedPreview(result.content, limit);
        LongestPreviewIsLongest(result.content, limit, |result.content|, n);
        truncations := truncations + 1;
      }
      m := ToolMessage(result.toolCallId, encode(result.(content := kept)));
    }

    method BoundResults(results: seq<ToolExecutionResult>) returns (messages: seq<Message>)
      modifies this`truncations
      ensures messages == BoundedMessages(encode, settings, results, settings.maxPerTurn)
      ensures truncations == old(truncations) + Truncations(encode, settings, results, settings.maxPerTurn)
    {
      messages := [];
      var remaining := settings.maxPerTurn;
      for i := 0 to |results|
        invariant |messages| == i
        invariant messages + BoundedMessages(encode, settings, results[i..], remaining) ==
                  BoundedMessages(encode, settings, results, settings.maxPerTurn)
        invariant truncations + Truncations(encode, settings, results[i..], remaining) ==
                  old(truncations) + Truncations(encode, settings, results, settings.maxPerTurn)
      {
        var message := BoundedToolResultMessage(results[i], remaining);
        assert results[i..][0] == results[i] && results[i..][1..] == results[i + 1..];
        assert messages + ([message] + BoundedMessages(encode, settings, results[i + 1..], Spend(remaining, message))) ==
               (messages + [message]) + BoundedMessages(encode, settings, results[i + 1..], Spend(remaining, message));
        messages := messages + [message];
        remaining := Spend(remaining, message);
      }
    }

    /** `add_group`: what is kept verbatim, and what is folded into the counters. */
    method AddGroup(assistant: Message, calls: seq<ToolCall>, results: seq<ToolExecutionResult>)
      returns (r: Result<bool, RetentionError>)
      requires Valid()
      modifies this
      ensures Valid()
      ensures r.Ok? <==> Accepted(Turn(assistant, calls, results))
      ensures r == Err(NotAToolCallMessage) <==> !assistant.AssistantMessage? || assistant.toolCalls == []
      ensures r == Err(CallsDoNotMatch) ==> CallIds(calls) != CallIds(assistant.toolCalls)
      ensures r == Err(ResultsDoNotMatch) ==> CallIds(calls) == CallIds(assistant.toolCalls) && ResultIds(results) != CallIds(calls)
      ensures r.Err? ==> history == old(history) && groups == old(groups) && truncations == old(truncations) && observed == old(observed)
      ensures r.Ok? ==>
                && history == old(history) + [Turn(assistant, calls, results)]
                && (r.value <==> Judge(encode, settings, Turn(assistant, calls, results)) != Kept)
                && truncations == old(truncations) + Truncations(encode, settings, results, settings.maxPerTurn)
                && observed == old(observed) + Paired(calls, results)
    {
      if !assistant.AssistantMessage? || assistant.toolCalls == [] { return Err(NotAToolCallMessage); }
      if CallIds(calls) != CallIds(assistant.toolCalls) { return Err(CallsDoNotMatch); }
      if ResultIds(results) != CallIds(calls) { return Err(ResultsDoNotMatch); }
      assert |results| == |ResultIds(results)| == |CallIds(calls)| == |calls|;
      ghost var t := Turn(assistant, calls, results);
      var messages := BoundResults(results);
      observed := observed + Paired(calls, results);
      TrackStep(encode, settings, history, groups, compactedMutations, compactedResults, t);
      history := history + [t];
      if TokensOf(messages) > settings.maxPerTurn {
        compactedResults := compactedResults + 1;
        return Ok(true);
      }
      if exists i :: 0 <= i < |calls| && calls[i].name in {"write_file", "apply_patch"} && results[i].ok {
        compactedMutations := compactedMutations + 1;
        return Ok(true);
      }
      groups := groups + [Group(assistant, messages)];
      return Ok(false);
    }

    /** `messages`: a valid conversation whenever the base messages are one. */
    method Messages() returns (messages: seq<Message>)
      requires Valid()
      ensures messages == Conversation(base, encode, settings, history, summarize(observed))
      ensures ShowsNewest(base, encode, settings, history, summarize(observed), messages)
      ensures WellFormed(base) ==> WellFormed(messages)
    {
      var retained := Newest(groups, settings.maxRetained);
      messages := base;
      var compacted := CompactedGroupCount();
      if compacted != 0 {
        messages := messages + [UserMessage(summarize(observed))];
      }
      ghost var front := messages;
      for i := 0 to |retained|
        invariant messages == front + Flatten(retained[..i])
      {
        FlattenStep(retained, i);
        JoinsOn(front, Flatten(retained[..i]), retained[i]);
        messages := messages + [retained[i].assistant];
        messages := messages + retained[i].results;
      }
      assert retained[..|retained|] == retained;
      ConversationHolds(base, encode, settings, history, summarize(observed));
    }
  }
}
