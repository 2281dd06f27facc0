/** The messaging page of pages/Chat.tsx: the conversation it loads (the
    messages between the signed-in user and the peer, sorted by timestamp),
    sending, the scripted reply, and the reply step that the 2000 ms timer
    triggers. The clock and the generated message ids are parameters. */
module Chat {
  import opened Wrappers
  import opened Types
  import opened Text
  import Seqs
  import Identity
  import MockData

  /** A message sent from `a` to `b` or from `b` to `a`. */
  predicate Between(m: ChatMessage, a: string, b: string) {
    (m.senderId == a && m.receiverId == b) || (m.senderId == b && m.receiverId == a)
  }

  ghost predicate Sorted(s: seq<ChatMessage>) {
    forall i, j :: 0 <= i < j < |s| ==> s[i].timestamp <= s[j].timestamp
  }

  /** The messages of `s` stamped `t`, in the order `s` has them. */
  function WithTimestamp(s: seq<ChatMessage>, t: int): (r: seq<ChatMessage>)
    ensures forall m :: m in r <==> m in s && m.timestamp == t
  {
    if s == [] then []
    else (if s[0].timestamp == t then [s[0]] else []) + WithTimestamp(s[1..], t)
  }

  lemma {:induction false} WithTimestampConcat(a: seq<ChatMessage>, b: seq<ChatMessage>, t: int)
    ensures WithTimestamp(a + b, t) == WithTimestamp(a, t) + WithTimestamp(b, t)
  {
    if a == [] {
      Seqs.EmptyConcat(b);
    } else {
      Seqs.ConcatHead(a, b);
      WithTimestampConcat(a[1..], b, t);
      var h: seq<ChatMessage> := if a[0].timestamp == t then [a[0]] else [];
      assert WithTimestamp(a, t) == h + WithTimestamp(a[1..], t);
      assert WithTimestamp(a + b, t) == h + WithTimestamp(a[1..] + b, t);
      Seqs.AppendShift(WithTimestamp(a + b, t), WithTimestamp(a, t), h,
                       WithTimestamp(a[1..], t), WithTimestamp(b, t));
    }
  }

  lemma {:induction false} NoneStamped(s: seq<ChatMessage>, t: int)
    requires forall m :: m in s ==> m.timestamp != t
    ensures WithTimestamp(s, t) == []
  {
    if s != [] {
      assert forall m :: m in s[1..] ==> m in s;
      NoneStamped(s[1..], t);
    }
  }

  /** A sort keeps messages with equal timestamps in their original order
      exactly when it leaves each `WithTimestamp` slice unchanged. */
  ghost predicate KeepsTies(r: seq<ChatMessage>, s: seq<ChatMessage>) {
    forall t :: WithTimestamp(r, t) == WithTimestamp(s, t)
  }

  /** Inserts `x` after every message stamped no later than it. */
  function Insert(x: ChatMessage, s: seq<ChatMessage>): (r: seq<ChatMessage>)
    ensures forall y :: y in r <==> y in s || y == x
    ensures multiset(r) == multiset(s) + multiset{x}
  {
    if s == [] then [x]
    else if x.timestamp < s[0].timestamp then [x] + s
    else
      assert s == [s[0]] + s[1..];
      [s[0]] + Insert(x, s[1..])
  }

  /** Inserting into a sorted sequence keeps it sorted. */
  lemma {:induction false} InsertSorted(x: ChatMessage, s: seq<ChatMessage>)
    requires Sorted(s)
    ensures Sorted(Insert(x, s))
  {
    if s != [] && x.timestamp >= s[0].timestamp {
      InsertSorted(x, s[1..]);
      var rest := Insert(x, s[1..]);
      assert forall y :: y in rest ==> s[0].timestamp <= y.timestamp;
      assert forall j :: 0 <= j < |rest| ==> rest[j] in rest;
    }
  }

  /** `messages.sort((a, b) => time(a) - time(b))`, which is stable. */
  function SortByTimestamp(s: seq<ChatMessage>): (r: seq<ChatMessage>)
    ensures forall y :: y in r <==> y in s
    ensures multiset(r) == multiset(s)
    ensures Sorted(r)
  {
    if s == [] then []
    else
      var init := s[..|s| - 1];
      assert s == init + [s[|s| - 1]];
      InsertSorted(s[|s| - 1], SortByTimestamp(init));
      Insert(s[|s| - 1], SortByTimestamp(init))
  }

  lemma {:induction false} WithTimestampCons(x: ChatMessage, s: seq<ChatMessage>, t: int)
    ensures WithTimestamp([x] + s, t) == (if x.timestamp == t then [x] else []) + WithTimestamp(s, t)
  {
    assert ([x] + s)[0] == x && ([x] + s)[1..] == s;
  }

  /** A sequence is empty exactly when no timestamp selects anything. */
  lemma NonEmptyHasTimestamp(s: seq<ChatMessage>)
    requires s != []
    ensures WithTimestamp(s, s[0].timestamp) != []
  {
    assert s[0] in WithTimestamp(s, s[0].timestamp);
  }

  lemma {:induction false} InsertKeepsTies(x: ChatMessage, s: seq<ChatMessage>, t: int)
    requires Sorted(s)
    ensures WithTimestamp(Insert(x, s), t)
         == WithTimestamp(s, t) + (if x.timestamp == t then [x] else [])
  {
    if s == [] {
      assert Insert(x, s) == [x] + s;
      WithTimestampCons(x, s, t);
    } else if x.timestamp < s[0].timestamp {
      assert Insert(x, s) == [x] + s;
      WithTimestampCons(x, s, t);
      if x.timestamp == t {
        assert forall m :: m in s ==> m.timestamp != t;
        NoneStamped(s, t);
      }
    } else {
      InsertKeepsTies(x, s[1..], t);
      InsertBehindKeepsTies(x, s, t);
    }
  }

  /** The step of `InsertKeepsTies` where `x` goes behind the head. */
  lemma {:induction false} InsertBehindKeepsTies(x: ChatMessage, s: seq<ChatMessage>, t: int)
    requires s != [] && x.timestamp >= s[0].timestamp
    requires WithTimestamp(Insert(x, s[1..]), t)
          == WithTimestamp(s[1..], t) + (if x.timestamp == t then [x] else [])
    ensures WithTimestamp(Insert(x, s), t)
         == WithTimestamp(s, t) + (if x.timestamp == t then [x] else [])
  {
    var h, tail := s[0], s[1..];
    var rest := Insert(x, tail);
    InsertBehind(x, s);
    WithTimestampCons(h, rest, t);
    WithTimestampCons(h, tail, t);
    Seqs.HeadTail(s);
    Seqs.AppendShift(WithTimestamp(Insert(x, s), t), WithTimestamp(s, t),
                if h.timestamp == t then [h] else [], WithTimestamp(tail, t),
                if x.timestamp == t then [x] else []);
  }

  lemma InsertBehind(x: ChatMessage, s: seq<ChatMessage>)
    requires s != [] && x.timestamp >= s[0].timestamp
    ensures Insert(x, s) == [s[0]] + Insert(x, s[1..])
  {
  }

  lemma {:induction false} InsertLastKeepsTies(x: ChatMessage, sorted: seq<ChatMessage>,
                                               init: seq<ChatMessage>, t: int)
    requires Sorted(sorted) && WithTimestamp(sorted, t) == WithTimestamp(init, t)
    ensures WithTimestamp(Insert(x, sorted), t) == WithTimestamp(init + [x], t)
  {
    InsertKeepsTies(x, sorted, t);
    WithTimestampConcat(init, [x], t);
    assert WithTimestamp([x], t) == if x.timestamp == t then [x] else [];
  }

  lemma {:induction false} SortKeepsTiesAt(s: seq<ChatMessage>, t: int)
    ensures WithTimestamp(SortByTimestamp(s), t) == WithTimestamp(s, t)
  {
    if s != [] {
      var n := |s| - 1;
      var init := s[..n];
      assert init + [s[n]] == s;
      var sorted := SortByTimestamp(init);
      assert SortByTimestamp(s) == Insert(s[n], sorted);
      SortKeepsTiesAt(init, t);
      InsertLastKeepsTies(s[n], sorted, init, t);
    }
  }

  /** The sort is stable: messages with equal timestamps keep their order. */
  lemma SortKeepsTies(s: seq<ChatMessage>)
    ensures KeepsTies(SortByTimestamp(s), s)
  {
    forall t ensures WithTimestamp(SortByTimestamp(s), t) == WithTimestamp(s, t) {
      SortKeepsTiesAt(s, t);
    }
  }

  /** A sorted sequence that keeps the ties of `s` is unique: any stable sort
      by timestamp returns exactly what `SortByTimestamp` returns. */
  lemma StableSortIsUnique(s: seq<ChatMessage>, r: seq<ChatMessage>)
    requires Sorted(r) && KeepsTies(r, s)
    ensures r == SortByTimestamp(s)
  {
    SortKeepsTies(s);
    SortedWithSameTiesEqual(r, SortByTimestamp(s));
  }

  /** In a sorted sequence no message is stamped earlier than the first. */
  lemma FirstIsEarliest(s: seq<ChatMessage>, m: ChatMessage)
    requires Sorted(s) && s != [] && m in s
    ensures s[0].timestamp <= m.timestamp
  {
    var j :| 0 <= j < |s| && s[j] == m;
  }

  lemma {:induction false} SameTiesSameHead(a: seq<ChatMessage>, b: seq<ChatMessage>)
    requires Sorted(a) && Sorted(b) && a != [] && b != []
    requires forall t :: WithTimestamp(a, t) == WithTimestamp(b, t)
    ensures a[0] == b[0]
  {
    var ta, tb := a[0].timestamp, b[0].timestamp;
    assert a[0] in WithTimestamp(a, ta);
    assert a[0] in WithTimestamp(b, ta);
    FirstIsEarliest(b, a[0]);
    assert b[0] in WithTimestamp(b, tb);
    assert b[0] in WithTimestamp(a, tb);
    FirstIsEarliest(a, b[0]);
    assert WithTimestamp(a, ta)[0] == a[0];
    assert WithTimestamp(b, tb)[0] == b[0];
  }

  lemma {:induction false} SameTiesSameTail(a: seq<ChatMessage>, b: seq<ChatMessage>, t: int)
    requires a != [] && b != [] && a[0] == b[0]
    requires WithTimestamp(a, t) == WithTimestamp(b, t)
    ensures WithTimestamp(a[1..], t) == WithTimestamp(b[1..], t)
  {
    var c: seq<ChatMessage> := if a[0].timestamp == t then [a[0]] else [];
    assert WithTimestamp(a, t) == c + WithTimestamp(a[1..], t);
    assert WithTimestamp(b, t) == c + WithTimestamp(b[1..], t);
    assert WithTimestamp(a[1..], t) == WithTimestamp(a, t)[|c|..];
    assert WithTimestamp(b[1..], t) == WithTimestamp(b, t)[|c|..];
  }

  lemma SameTiesSameEmptiness(a: seq<ChatMessage>, b: seq<ChatMessage>)
    requires forall t :: WithTimestamp(a, t) == WithTimestamp(b, t)
    ensures a == [] <==> b == []
  {
    if a != [] {
      NonEmptyHasTimestamp(a);
      assert WithTimestamp(b, a[0].timestamp) != [];
    }
    if b != [] {
      NonEmptyHasTimestamp(b);
      assert WithTimestamp(a, b[0].timestamp) != [];
    }
  }

  lemma {:induction false} SortedWithSameTiesEqual(a: seq<ChatMessage>, b: seq<ChatMessage>)
    requires Sorted(a) && Sorted(b)
    requires forall t :: WithTimestamp(a, t) == WithTimestamp(b, t)
    ensures a == b
    decreases |a|
  {
    SameTiesSameEmptiness(a, b);
    if a != [] {
      SameTiesSameHead(a, b);
      forall t ensures WithTimestamp(a[1..], t) == WithTimestamp(b[1..], t) {
        SameTiesSameTail(a, b, t);
      }
      SortedWithSameTiesEqual(a[1..], b[1..]);
      assert a == [a[0]] + a[1..] && b == [b[0]] + b[1..];
    }
  }

  /** The conversation loaded for the signed-in user `me` and the peer: the
      messages between the two, earliest first, ties in store order. */
  function Conversation(store: seq<ChatMessage>, me: string, peer: string): (r: seq<ChatMessage>)
    ensures Sorted(r)
    ensures forall m :: m in r <==> m in store && Between(m, me, peer)
    ensures multiset(r) == multiset(Seqs.Filter(store, (m: ChatMessage) => Between(m, me, peer)))
  {
    SortByTimestamp(Seqs.Filter(store, (m: ChatMessage) => Between(m, me, peer)))
  }

  /** Ties are broken by store order. */
  lemma ConversationKeepsTies(store: seq<ChatMessage>, me: string, peer: string)
    ensures KeepsTies(Conversation(store, me, peer),
                      Seqs.Filter(store, (m: ChatMessage) => Between(m, me, peer)))
  {
    SortKeepsTies(Seqs.Filter(store, (m: ChatMessage) => Between(m, me, peer)));
  }

  /** Both participants see the same conversation. */
  lemma ConversationSymmetric(store: seq<ChatMessage>, a: string, b: string)
    ensures Conversation(store, a, b) == Conversation(store, b, a)
  {
    Seqs.FilterCongruent(store,
      (m: ChatMessage) => Between(m, a, b), (m: ChatMessage) => Between(m, b, a));
  }

  /** A store that already holds only the two users' messages, in time
      order, is shown as it is. */
  lemma ConversationOfSortedStore(store: seq<ChatMessage>, me: string, peer: string)
    requires forall j :: 0 <= j < |store| ==> Between(store[j], me, peer)
    requires Sorted(store)
    ensures Conversation(store, me, peer) == store
  {
    Seqs.FilterAll(store, (m: ChatMessage) => Between(m, me, peer));
    forall t ensures WithTimestamp(store, t) == WithTimestamp(store, t) { }
    StableSortIsUnique(store, store);
  }

  /** Users '1' and '2' see all three fixture messages, in fixture order. */
  lemma FixtureConversation()
    ensures Conversation(MockData.MockChatMessages, "1", "2") == MockData.MockChatMessages
  {
    var s := MockData.MockChatMessages;
    assert Sorted(s);
    ConversationOfSortedStore(s, "1", "2");
  }

  /** The greeting names what the replying party is interested in, which
      depends on the role of the user who wrote the message. */
  function GreetingReply(role: Role): string {
    if role == InvestorRole then InvestorGreeting else EntrepreneurGreeting
  }

  const GreetingIntro: string :=
    "Hello! Thanks for reaching out. I'm interested in learning more about your "
  const InvestorGreeting: string := GreetingIntro + "investment opportunities" + "."
  const EntrepreneurGreeting: string := GreetingIntro + "startup" + "."

  /** The greeting names investment opportunities to an investor and the
      startup to anyone else, and so differs between the two roles. */
  lemma GreetingNamesInterest()
    ensures Includes(GreetingReply(InvestorRole), "investment opportunities")
    ensures Includes(GreetingReply(EntrepreneurRole), "startup")
    ensures GreetingReply(InvestorRole) != GreetingReply(EntrepreneurRole)
  {
    var intro := GreetingIntro;
    Seqs.AppendAssoc(intro, "investment opportunities", ".");
    Seqs.AppendAssoc(intro, "startup", ".");
    IncludesInSuffix(intro, "investment opportunities" + ".", "investment opportunities");
    IncludesInSuffix(intro, "startup" + ".", "startup");
    assert |GreetingReply(InvestorRole)| != |GreetingReply(EntrepreneurRole)|;
  }

  const MeetingReply: string :=
    "I'd be happy to schedule a call. What times work best for you this week?"
  const FundingReply: string :=
    "That sounds interesting! Could you share more details about your funding requirements and timeline?"
  const DefaultReply: string :=
    "Thanks for your message! I'll get back to you soon with more details."

  predicate AsksGreeting(lower: string) { Includes(lower, "hello") || Includes(lower, "hi") }
  predicate AsksMeeting(lower: string) { Includes(lower, "meeting") || Includes(lower, "call") }
  predicate AsksFunding(lower: string) { Includes(lower, "investment") || Includes(lower, "funding") }

  /** `getAutoReply`: the first of the four rules that matches the
      lower-cased message picks the reply. */
  function AutoReply(text: string, role: Role): string {
    var lower := ToLower(text);
    if AsksGreeting(lower) then GreetingReply(role)
    else if AsksMeeting(lower) then MeetingReply
    else if AsksFunding(lower) then FundingReply
    else DefaultReply
  }

  /** The four replies are different texts, so the reply tells which rule
      fired, and the rules fire in priority order. */
  lemma AutoReplyPriority(text: string, role: Role)
    ensures var lower := ToLower(text); var r := AutoReply(text, role);
      && (r == GreetingReply(role) <==> AsksGreeting(lower))
      && (r == MeetingReply <==> !AsksGreeting(lower) && AsksMeeting(lower))
      && (r == FundingReply <==> !AsksGreeting(lower) && !AsksMeeting(lower) && AsksFunding(lower))
      && (r == DefaultReply <==> !AsksGreeting(lower) && !AsksMeeting(lower) && !AsksFunding(lower))
  {
    assert |GreetingReply(role)| >= 83;
    assert |MeetingReply| == 72 && |FundingReply| == 99 && |DefaultReply| == 69;
    assert |GreetingReply(role)| != 99;
  }

  /** A greeting anywhere wins, even inside another word ("this" contains
      "hi") and even when funding is mentioned too. */
  lemma GreetingExample(role: Role)
    ensures AutoReply("Hi there", role) == GreetingReply(role)
  {
    assert ToLower("Hi there") == "hi there";
  }

  lemma GreetingInsideWordExample(role: Role)
    ensures AutoReply("this", role) == GreetingReply(role)
  {
    assert ToLower("this") == "t" + "his";
    IncludesInSuffix("t", "his", "hi");
  }

  lemma GreetingFirstExample(role: Role)
    ensures AutoReply("Hello, any funding news?", role) == GreetingReply(role)
  {
    var lower := ToLower("Hello, any funding news?");
    assert lower == "hello" + ", any funding news?";
    assert StartsWith(lower, "hello");
  }

  /** Without an 'h' there is no greeting, and without an 'm' or a 'c' no
      meeting request. */
  lemma {:induction false} NoGreetingOrMeeting(lower: string)
    requires 'h' !in lower && 'm' !in lower && 'c' !in lower
    ensures !AsksGreeting(lower) && !AsksMeeting(lower)
  {
    AbsentFirstNotIncluded(lower, "hello");
    AbsentFirstNotIncluded(lower, "hi");
    AbsentFirstNotIncluded(lower, "meeting");
    AbsentFirstNotIncluded(lower, "call");
  }

  /** Without an 'i' or an 'f' there is no mention of funding. */
  lemma {:induction false} NoFunding(lower: string)
    requires 'i' !in lower && 'f' !in lower
    ensures !AsksFunding(lower)
  {
    AbsentFirstNotIncluded(lower, "investment");
    AbsentFirstNotIncluded(lower, "funding");
  }

  lemma MeetingExample(role: Role)
    ensures AutoReply("Can we set up a call", role) == MeetingReply
  {
    var lower := "can we set up a " + "call";
    assert ToLower("Can we set up a call") == lower;
    AbsentFirstNotIncluded(lower, "hello");
    AbsentFirstNotIncluded(lower, "hi");
    IncludesInSuffix("can we set up a ", "call", "call");
  }

  lemma FundingExample(role: Role)
    ensures AutoReply("Any funding news?", role) == FundingReply
  {
    var lower := "any " + "funding news?";
    assert ToLower("Any funding news?") == lower;
    NoGreetingOrMeeting(lower);
    IncludesInSuffix("any ", "funding news?", "funding");
  }

  /** A message with none of the letters that start a keyword gets the
      default reply. */
  lemma NoKeywordLettersGetDefault(text: string, role: Role)
    requires var lower := ToLower(text);
      'h' !in lower && 'm' !in lower && 'c' !in lower && 'i' !in lower && 'f' !in lower
    ensures AutoReply(text, role) == DefaultReply
  {
    NoGreetingOrMeeting(ToLower(text));
    NoFunding(ToLower(text));
  }

  lemma DefaultExample(role: Role)
    ensures AutoReply("Ok, great", role) == DefaultReply
  {
    assert ToLower("Ok, great") == "ok, great";
    NoKeywordLettersGetDefault("Ok, great", role);
  }

  /** A reply the timer will deliver, from the peer back to the user, and
      the trimmed text it answers. */
  datatype PendingReply = PendingReply(senderId: string, receiverId: string, prompt: string)

  /** One mounted chat page: the signed-in user, the peer id from the URL
      (the empty string when the parameter is missing), the peer's record
      ("User not found" is shown when there is none), the messages shown,
      the input box, the typing indicator, and the replies still to arrive,
      in the order their timers fire. */
  class ChatView {
    const me: Option<User>
    const peerId: string
    const peer: Option<User>
    var messages: seq<ChatMessage>
    var draft: string
    var typing: bool
    var pending: seq<PendingReply>

    /** The page only ever shows the conversation between `me` and the peer,
        and only the peer replies. */
    ghost predicate Valid()
      reads this
    {
      && (me.None? || peerId == "" ==> messages == [] && pending == [])
      && (me.Some? ==> forall i :: 0 <= i < |messages| ==> Between(messages[i], me.value.id, peerId))
      && (me.Some? ==> forall i :: 0 <= i < |pending| ==>
            pending[i].senderId == peerId && pending[i].receiverId == me.value.id)
    }

    /** Mounting and the loading effect: with a user and a peer id, the
        conversation from the message store; otherwise nothing. The peer is
        looked up in the user store by id. */
    constructor (me: Option<User>, peerId: string, users: seq<User>, store: seq<ChatMessage>)
      ensures Valid()
      ensures this.me == me && this.peerId == peerId
      ensures peer.None? <==> forall j :: 0 <= j < |users| ==> users[j].id != peerId
      ensures peer.Some? ==> peer.value in users && peer.value.id == peerId
      ensures messages == if me.Some? && peerId != "" then Conversation(store, me.value.id, peerId) else []
      ensures draft == "" && !typing && pending == []
    {
      this.me := me;
      this.peerId := peerId;
      peer := Identity.FindById(users, peerId);
      messages := if me.Some? && peerId != "" then Conversation(store, me.value.id, peerId) else [];
      draft := "";
      typing := false;
      pending := [];
    }

    /** Typing into the input box. */
    method Edit(text: string)
      requires Valid()
      modifies this
      ensures Valid()
      ensures draft == text
      ensures messages == old(messages) && typing == old(typing) && pending == old(pending)
    {
      draft := text;
    }

    /** `handleSendMessage`: blank text, or no user or peer id, changes
        nothing; otherwise the trimmed text is appended as one unread message
        from the user to the peer, the input is cleared, the typing indicator
        goes on and a reply to that text is scheduled. When the peer id names
        nobody the page shows "User not found" and has no input box, so
        nothing can be sent either. */
    method Send(id: string, now: int)
      requires Valid()
      modifies this
      ensures Valid()
      ensures Trim(old(draft)) == [] || me.None? || peerId == "" || peer.None? ==>
        messages == old(messages) && draft == old(draft) && typing == old(typing)
        && pending == old(pending)
      ensures Trim(old(draft)) != [] && me.Some? && peerId != "" && peer.Some? ==>
        && messages == old(messages) + [ChatMessage(id, me.value.id, peerId, Trim(old(draft)), now, false)]
        && draft == "" && typing
        && pending == old(pending) + [PendingReply(peerId, me.value.id, Trim(old(draft)))]
    {
      var text := Trim(draft);
      if text == [] || me.None? || peerId == "" || peer.None? {
        return;
      }
      messages := messages + [ChatMessage(id, me.value.id, peerId, text, now, false)];
      draft := "";
      typing := true;
      pending := pending + [PendingReply(peerId, me.value.id, text)];
    }

    /** The timer of the earliest send fires at time `now`: the indicator goes
        off and the reply to that send's text, stamped a second later, is
        appended at the end without re-sorting. */
    method DeliverReply(id: string, now: int)
      requires Valid() && pending != []
      modifies this
      ensures Valid()
      ensures me.Some? && messages == old(messages)
        + [ChatMessage(id, old(pending)[0].senderId, old(pending)[0].receiverId,
                       AutoReply(old(pending)[0].prompt, me.value.role), now + 1000, false)]
      ensures pending == old(pending)[1..] && !typing && draft == old(draft)
    {
      var p := pending[0];
      typing := false;
      messages := messages + [ChatMessage(id, p.senderId, p.receiverId, AutoReply(p.prompt, me.value.role), now + 1000, false)];
      pending := pending[1..];
    }
  }
}
