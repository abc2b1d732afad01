/** The in-memory mock backend of the admin interface: module-level arrays of
    contents, comments, events, users, chats, messages and notifications, and
    the API functions that read and update them. Each array is a `seq` field of
    one `MockBackend` object; the API functions that change an array are its
    methods, the ones that only read are functions reading it. The simulated
    network delay is not modelled; `now` stands for `new Date()`. */
module Api {
  import opened Wrappers
  import opened Js
  import opened Types
  import opened Sorting

  // ---------------------------------------------------------------------
  // Identifier bookkeeping

  /** No id in `ids` is `prefix` followed by a number above `n`: the ids the
      backend hands out next (`prefix` + (length + 1)) are then fresh. */
  ghost predicate NumberedBelow(ids: seq<string>, prefix: string, n: nat) {
    forall i, k: nat :: 0 <= i < |ids| && k > n ==> ids[i] != prefix + NatToString(k)
  }

  /** The next number is not taken, and taking it keeps the bookkeeping. */
  lemma {:induction false} NextIdFresh(ids: seq<string>, prefix: string, n: nat)
    requires NumberedBelow(ids, prefix, n)
    ensures prefix + NatToString(n + 1) !in ids
    ensures NumberedBelow([prefix + NatToString(n + 1)] + ids, prefix, n + 1)
    ensures NumberedBelow(ids + [prefix + NatToString(n + 1)], prefix, n + 1)
  {
    var x := prefix + NatToString(n + 1);
    forall i | 0 <= i < |ids| ensures ids[i] != x {
      assert n + 1 > n;
    }
    forall k: nat | k > n + 1 ensures x != prefix + NatToString(k) {
      PrefixedNatInjective(prefix, n + 1, k);
    }
  }

  function ContentIds(cs: seq<Content>): seq<string> { Map(cs, (c: Content) => c.id) }
  function CommentIds(cs: seq<Comment>): seq<string> { Map(cs, (c: Comment) => c.id) }
  function EventIds(es: seq<Event>): seq<string> { Map(es, (e: Event) => e.id) }
  function ChatIds(cs: seq<Chat>): seq<string> { Map(cs, (c: Chat) => c.id) }
  function MessageIds(ms: seq<ChatMessage>): seq<string> { Map(ms, (m: ChatMessage) => m.id) }

  /** No two users share an e-mail address. */
  predicate EmailsUnique(us: seq<User>) {
    forall i, j :: 0 <= i < j < |us| ==> us[i].email != us[j].email
  }

  /** No two chats belong to the same writer. */
  predicate WritersUnique(cs: seq<Chat>) {
    forall i, j :: 0 <= i < j < |cs| ==> cs[i].writerId != cs[j].writerId
  }

  // ---------------------------------------------------------------------
  // Lookups shared by the methods and their contracts

  function UserIndex(us: seq<User>, id: string): int { FindIndex(us, (u: User) => u.id == id) }
  function ChatIndex(cs: seq<Chat>, id: string): int { FindIndex(cs, (c: Chat) => c.id == id) }
  function WriterChatIndex(cs: seq<Chat>, writerId: string): int
  {
    FindIndex(cs, (c: Chat) => c.writerId == writerId)
  }
  function NotificationIndex(ns: seq<Notification>, id: string): int
  {
    FindIndex(ns, (n: Notification) => n.id == id)
  }

  predicate EmailTaken(us: seq<User>, email: string) {
    exists i :: 0 <= i < |us| && us[i].email == email
  }

  // ---------------------------------------------------------------------
  // Sort keys (`(a, b) => key(a) - key(b)`; newest first is the negated time)

  function ContentTime(c: Content): int { c.createdAt }
  function EventRecency(e: Event): int { -e.createdAt }
  function UserRecency(u: User): int { -u.createdAt }
  function ChatRecency(c: Chat): int { -c.updatedAt }
  function MessageTime(m: ChatMessage): int { m.timestamp }
  function NotificationRecency(n: Notification): int { -n.createdAt }

  // ---------------------------------------------------------------------
  // Pure parts of the API functions

  /** Position of the first item of page `page` (pages count from 1). */
  function PageStart(page: int, pageSize: nat): (start: int)
    ensures page >= 1 ==> start >= 0
  {
    (page - 1) * pageSize
  }

  /** How the start of a page compares with the number of items. */
  lemma PageWindow(page: int, pageSize: nat, n: nat)
    requires pageSize > 0
    ensures page > CeilDiv(n, pageSize) ==> PageStart(page, pageSize) >= n
    ensures 1 <= page <= CeilDiv(n, pageSize) ==> PageStart(page, pageSize) < n
  {
    var tp := CeilDiv(n, pageSize);
    if page > tp {
      MulMono(tp, page - 1, pageSize);
    } else if 1 <= page {
      MulMono(page - 1, tp - 1, pageSize);
    }
  }

  /** One page of `items`: `slice((page - 1) * pageSize, page * pageSize)`
      with the total and `Math.ceil(total / pageSize)` pages. */
  function Paginate<T>(items: seq<T>, page: int, pageSize: nat): (r: PaginatedResponse<T>)
    requires pageSize > 0
    ensures r.total == |items| && r.page == page && r.pageSize == pageSize
    ensures (r.totalPages - 1) * pageSize < |items| <= r.totalPages * pageSize
            || (|items| == 0 && r.totalPages == 0)
    ensures |r.data| <= pageSize
    ensures page >= 1 ==>
      var start := PageStart(page, pageSize);
      r.data == items[Min(start, |items|)..Min(start + pageSize, |items|)]
  {
    var start := PageStart(page, pageSize);
    PaginatedResponse(Slice(items, start, start + pageSize), |items|, page, pageSize,
      CeilDiv(|items|, pageSize))
  }

  /** The pages from 1 to `totalPages` hold something; page 0 and the pages
      after the last are empty. */
  lemma PageEmptiness<T>(items: seq<T>, page: int, pageSize: nat)
    requires pageSize > 0
    ensures var r := Paginate(items, page, pageSize);
            (1 <= page <= r.totalPages ==> r.data != [])
            && (page == 0 || page > r.totalPages ==> r.data == [])
  {
    PageWindow(page, pageSize, |items|);
    assert PageStart(0, pageSize) + pageSize == 0;
  }

  /** Every item is on exactly the page its position says. */
  lemma {:induction false} PageOfItem<T>(items: seq<T>, pageSize: nat, i: nat)
    requires pageSize > 0 && i < |items|
    ensures i / pageSize + 1 <= Paginate(items, i / pageSize + 1, pageSize).totalPages
    ensures var p := Paginate(items, i / pageSize + 1, pageSize);
            i % pageSize < |p.data| && p.data[i % pageSize] == items[i]
  {
    var q, m := i / pageSize, i % pageSize;
    assert PageStart(q + 1, pageSize) + m == i;
    ItemOnPage(items, pageSize, q + 1, m);
  }

  lemma ItemOnPage<T>(items: seq<T>, pageSize: nat, page: int, m: nat)
    requires pageSize > 0 && page >= 1 && m < pageSize && PageStart(page, pageSize) + m < |items|
    ensures var p := Paginate(items, page, pageSize);
            page <= p.totalPages && m < |p.data| && p.data[m] == items[PageStart(page, pageSize) + m]
  {
    PageWindow(page, pageSize, |items|);
  }

  predicate HasStatus(c: Content, status: Option<ContentStatus>) {
    status.None? || c.status == status.value
  }

  /** The contents kept by the optional status filter, in storage order. */
  function ByStatus(cs: seq<Content>, status: Option<ContentStatus>): (r: seq<Content>)
    ensures forall c :: c in r <==> c in cs && HasStatus(c, status)
    ensures status.None? ==> r == cs
  {
    if status.None? then cs else Filter(cs, (c: Content) => c.status == status.value)
  }

  /** The record a submission creates when `n` contents are stored. */
  function NewContent(n: nat, t: ContentType, title: string, text: string, now: Timestamp): (c: Content)
    ensures c.id == NatToString(n + 1) && c.Type() == t
    ensures c.title == title && c.content == text && c.status == Submitted
    ensures c.createdAt == now && c.updatedAt == now
  {
    Content(NatToString(n + 1), title, text, Submitted, now, now, "user1", "John Doe",
      if t == StoryType then Story(|SplitSpaces(text)|, Some("General"))
      else Poem(|Split(text, '\n')|, Some("Free Verse")))
  }

  /** A story written as words separated by single spaces counts its words. */
  lemma StoryWordCount(n: nat, title: string, words: seq<string>, now: Timestamp)
    requires |words| >= 1
    requires forall i :: 0 <= i < |words| ==> words[i] != "" && NoSpace(words[i])
    ensures NewContent(n, StoryType, title, Join(words, ' '), now).kind.wordCount == |words|
  {
    SplitSpacesJoin(words);
  }

  /** Whatever the text, a story counts one word more than the text has
      maximal runs of whitespace: one per piece between the runs, with an
      empty piece before a leading run and after a trailing one. */
  lemma StoryWordCountRuns(n: nat, title: string, text: string,
                           pieces: seq<string>, runs: seq<string>, now: Timestamp)
    requires CutAtRuns(text, pieces, runs)
    ensures NewContent(n, StoryType, title, text, now).kind.wordCount == |runs| + 1
  {
    CutAtRunsUnique(text, pieces, runs);
  }

  /** A poem counts one line more than it has line breaks. */
  lemma PoemLineCount(n: nat, title: string, text: string, now: Timestamp)
    ensures NewContent(n, PoemType, title, text, now).kind.lines == Occurrences(text, '\n') + 1
  {
    SplitLength(text, '\n');
  }

  /** The comment `addComment` stores when `n` comments exist. */
  function NewComment(n: nat, contentId: string, text: string, now: Timestamp): (c: Comment)
    ensures c.id == "c" + NatToString(n + 1)
    ensures c.contentId == contentId && c.text == text && !c.isReviewer
  {
    Comment("c" + NatToString(n + 1), contentId, "user1", "John Doe", text, now, false)
  }

  /** `data.hasSiblingEvent && data.siblingEventName && data.siblingTimePeriod`. */
  predicate WantsSibling(data: CreateEventData) {
    data.hasSiblingEvent && Truthy(data.siblingEventName) && data.siblingTimePeriod.Some?
  }

  /** The event `createEvent` stores when `n` events exist. */
  function NewEvent(n: nat, data: CreateEventData, now: Timestamp): (e: Event)
    ensures e.id == "ev" + NatToString(n + 1)
    ensures e.name == data.name && e.duration == data.duration && e.timePeriod == data.timePeriod
    ensures e.resultsReleased == data.resultsReleased && e.teamMembers == data.teamMembers
    ensures e.siblingEvent.Some? <==> WantsSibling(data)
    ensures e.siblingEvent.Some? ==>
      e.siblingEvent.value == SiblingEvent("sev" + NatToString(n + 1),
        data.siblingEventName.value, data.siblingTimePeriod.value)
    ensures e.createdAt == now && e.updatedAt == now
  {
    Event("ev" + NatToString(n + 1), data.name, data.duration, data.timePeriod,
      if WantsSibling(data)
      then Some(SiblingEvent("sev" + NatToString(n + 1), data.siblingEventName.value,
                             data.siblingTimePeriod.value))
      else None,
      data.resultsReleased, data.teamMembers, now, now)
  }

  /** The user `createUser` stores when `n` users exist. */
  function NewUser(n: nat, data: CreateUserData, now: Timestamp): (u: User)
    ensures u.id == "u" + NatToString(n + 1)
    ensures u.fullName == data.fullName && u.email == data.email
    ensures u.password == "hashed_" + data.password
    ensures u.status == Active && u.createdAt == now && u.lastLogin.None?
  {
    User("u" + NatToString(n + 1), data.fullName, data.email, "hashed_" + data.password,
      Active, now, None)
  }

  /** Adding a user whose address is not taken keeps addresses unique. */
  lemma AddUserKeepsEmailsUnique(us: seq<User>, u: User)
    requires EmailsUnique(us) && !EmailTaken(us, u.email)
    ensures EmailsUnique([u] + us)
  {
    var r := [u] + us;
    forall i, j | 0 <= i < j < |r| ensures r[i].email != r[j].email {
      if i == 0 { assert r[j] == us[j - 1]; }
      else { assert r[i] == us[i - 1] && r[j] == us[j - 1]; }
    }
  }

  /** Removing one user keeps addresses unique. */
  lemma RemoveUserKeepsEmailsUnique(us: seq<User>, k: nat)
    requires EmailsUnique(us) && k < |us|
    ensures EmailsUnique(us[..k] + us[k + 1..])
  {
    var r := us[..k] + us[k + 1..];
    forall i, j | 0 <= i < j < |r| ensures r[i].email != r[j].email {
      var i' := if i < k then i else i + 1;
      var j' := if j < k then j else j + 1;
      assert r[i] == us[i'] && r[j] == us[j'];
    }
  }

  lemma SortedMessagesOf(ms: seq<ChatMessage>, chatId: string, r: seq<ChatMessage>)
    requires r == SortByKey(MessagesOf(ms, chatId), MessageTime)
    ensures forall m :: m in r ==> m in ms && m.chatId == chatId
  {
    var own := MessagesOf(ms, chatId);
    forall m | m in r ensures m in ms && m.chatId == chatId {
      assert m in multiset(own);
    }
  }

  /** A new chat for a writer without one, numbered after the stored chats,
      keeps the chat bookkeeping and is that writer's chat from then on. */
  lemma PrependChat(cs: seq<Chat>, c: Chat)
    requires NumberedBelow(ChatIds(cs), "chat", |cs|) && WritersUnique(cs)
    requires c.id == "chat" + NatToString(|cs| + 1) && WriterChatIndex(cs, c.writerId) < 0
    ensures NumberedBelow(ChatIds([c] + cs), "chat", |cs| + 1) && WritersUnique([c] + cs)
    ensures WriterChatIndex([c] + cs, c.writerId) == 0
  {
    ChatIdsCons(c, cs);
    NextIdFresh(ChatIds(cs), "chat", |cs|);
    PrependWriter(cs, c);
  }

  lemma ChatIdsCons(c: Chat, cs: seq<Chat>)
    ensures ChatIds([c] + cs) == [c.id] + ChatIds(cs)
  {
  }

  lemma PrependWriter(cs: seq<Chat>, c: Chat)
    requires WritersUnique(cs) && WriterChatIndex(cs, c.writerId) < 0
    ensures WritersUnique([c] + cs) && WriterChatIndex([c] + cs, c.writerId) == 0
  {
    var r := [c] + cs;
    forall i, j | 0 <= i < j < |r| ensures r[i].writerId != r[j].writerId {
      assert r[j] == cs[j - 1];
      if i > 0 { assert r[i] == cs[i - 1]; }
    }
  }

  /** Changing the update time of one chat keeps the chat bookkeeping. */
  lemma TouchChat(cs: seq<Chat>, k: nat, now: Timestamp)
    requires NumberedBelow(ChatIds(cs), "chat", |cs|) && WritersUnique(cs) && k < |cs|
    ensures var r := cs[k := cs[k].(updatedAt := now)];
            NumberedBelow(ChatIds(r), "chat", |r|) && WritersUnique(r)
  {
    var r := cs[k := cs[k].(updatedAt := now)];
    assert ChatIds(r) == ChatIds(cs);
    assert forall i :: 0 <= i < |r| ==> r[i].writerId == cs[i].writerId;
  }

  /** User ids are numbered by the current length, so after a removal the
      next new user gets the id of a user still stored. */
  lemma {:induction false} UserIdReused(a: User, b: User, data: CreateUserData, now: Timestamp)
    requires a.id == "u1" && b.id == "u2"
    ensures var after := [a, b][..0] + [a, b][1..];
            NewUser(|after|, data, now).id == after[0].id
  {
    var after := [a, b][..0] + [a, b][1..];
    assert after == [b];
    assert NatToString(2) == "2";
  }

  /** The message `sendMessage` stores when `n` messages exist. */
  function NewMessage(n: nat, data: SendMessageData, now: Timestamp): (m: ChatMessage)
    ensures m.id == "msg" + NatToString(n + 1)
    ensures m.chatId == data.chatId && m.message == data.message
    ensures m.senderRole == Admin && !m.read && m.timestamp == now
  {
    ChatMessage("msg" + NatToString(n + 1), data.chatId, "admin1", "Admin", Admin,
      data.message, now, false)
  }

  /** The chat `createChat` stores for a writer when `n` chats exist. */
  function NewChat(n: nat, writer: User, now: Timestamp): (c: Chat)
    ensures c.id == "chat" + NatToString(n + 1)
    ensures c.writerId == writer.id && c.writerName == writer.fullName
    ensures c.writerEmail == writer.email
    ensures c.lastMessage.None? && c.unreadCount == 0
    ensures c.createdAt == now && c.updatedAt == now
  {
    Chat("chat" + NatToString(n + 1), writer.id, writer.fullName, writer.email, None, 0, now, now)
  }

  /** The messages of one chat, in storage order. */
  function MessagesOf(ms: seq<ChatMessage>, chatId: string): (r: seq<ChatMessage>)
    ensures forall m :: m in r <==> m in ms && m.chatId == chatId
  {
    Filter(ms, (m: ChatMessage) => m.chatId == chatId)
  }

  predicate UnreadFromWriter(m: ChatMessage) { m.senderRole == Writer && !m.read }

  /** The number of messages of a chat that a writer sent and the admin has
      not read. */
  function UnreadOf(ms: seq<ChatMessage>, chatId: string): (r: nat)
    ensures r <= |MessagesOf(ms, chatId)|
    ensures r == 0 <==> forall m :: m in ms && m.chatId == chatId ==> !UnreadFromWriter(m)
  {
    var unread := Filter(MessagesOf(ms, chatId), UnreadFromWriter);
    assert unread != [] ==> unread[0] in unread;
    |unread|
  }

  /** A chat as `fetchChats` reports it: its last stored message and its
      unread count, every other field as stored. */
  function Summary(c: Chat, ms: seq<ChatMessage>): (r: Chat)
    ensures r == c.(lastMessage := r.lastMessage, unreadCount := r.unreadCount)
    ensures r.unreadCount == UnreadOf(ms, c.id)
    ensures r.lastMessage.None? <==> forall i :: 0 <= i < |ms| ==> ms[i].chatId != c.id
    ensures r.lastMessage.Some? ==> r.lastMessage.value in ms && r.lastMessage.value.chatId == c.id
  {
    var own := MessagesOf(ms, c.id);
    assert own == [] ==> forall i :: 0 <= i < |ms| ==> ms[i].chatId != c.id;
    c.(lastMessage := if own == [] then None else Some(own[|own| - 1]),
       unreadCount := UnreadOf(ms, c.id))
  }

  function Summaries(cs: seq<Chat>, ms: seq<ChatMessage>): (r: seq<Chat>)
    ensures |r| == |cs| && forall i :: 0 <= i < |cs| ==> r[i] == Summary(cs[i], ms)
  {
    Map(cs, (c: Chat) => Summary(c, ms))
  }

  /** A message the admin sends becomes the chat's last message and leaves its
      unread count as it was. */
  lemma {:induction false} AdminMessageSummary(c: Chat, ms: seq<ChatMessage>, m: ChatMessage)
    requires m.chatId == c.id && m.senderRole == Admin
    ensures Summary(c, ms + [m]).lastMessage == Some(m)
    ensures Summary(c, ms + [m]).unreadCount == Summary(c, ms).unreadCount
  {
    var p := (x: ChatMessage) => x.chatId == c.id;
    FilterAppend(ms, [m], p);
    assert Filter([m], p) == [m] + Filter([m][1..], p);
    assert Filter([m], p) == [m];
    var own := MessagesOf(ms, c.id);
    FilterAppend(own, [m], UnreadFromWriter);
    assert Filter([m], UnreadFromWriter) == Filter([m][1..], UnreadFromWriter);
  }

  /** A chat with no stored message has no last message and nothing unread. */
  lemma EmptySummary(c: Chat)
    ensures Summary(c, []).lastMessage == None && Summary(c, []).unreadCount == 0
  {
  }

  /** A message the writer sends becomes the chat's last message, and counts
      as unread exactly when it has not been read. With AdminMessageSummary,
      OtherChatSummary and EmptySummary this fixes both fields of the summary
      for every list of messages. */
  lemma {:induction false} WriterMessageSummary(c: Chat, ms: seq<ChatMessage>, m: ChatMessage)
    requires m.chatId == c.id && m.senderRole == Writer
    ensures Summary(c, ms + [m]).lastMessage == Some(m)
    ensures Summary(c, ms + [m]).unreadCount == Summary(c, ms).unreadCount + (if m.read then 0 else 1)
  {
    OwnMessageAppended(ms, m);
    var own := MessagesOf(ms, c.id);
    FilterAppend(own, [m], UnreadFromWriter);
    assert Filter([m], UnreadFromWriter)
           == (if m.read then [] else [m]) + Filter([m][1..], UnreadFromWriter);
  }

  lemma OwnMessageAppended(ms: seq<ChatMessage>, m: ChatMessage)
    ensures MessagesOf(ms + [m], m.chatId) == MessagesOf(ms, m.chatId) + [m]
  {
    var p := (x: ChatMessage) => x.chatId == m.chatId;
    FilterAppend(ms, [m], p);
    assert Filter([m], p) == [m] + Filter([m][1..], p);
  }

  /** A message sent to another chat changes nothing in this chat's summary. */
  lemma {:induction false} OtherChatSummary(c: Chat, ms: seq<ChatMessage>, m: ChatMessage)
    requires m.chatId != c.id
    ensures Summary(c, ms + [m]) == Summary(c, ms)
  {
    var p := (x: ChatMessage) => x.chatId == c.id;
    FilterAppend(ms, [m], p);
    assert Filter([m], p) == Filter([m][1..], p);
    assert Filter(ms + [m], p) == Filter(ms, p);
  }

  /** `checkQualityAI`: `Math.floor(Math.random() * 30) + 70` with the fixed
      feedback lists; `random` is the value of `Math.random()`. */
  function CheckQuality(content: string, random: real): (r: AIQualityResponse)
    requires 0.0 <= random < 1.0
    ensures 70 <= r.score <= 99
    ensures |r.feedback| == 3 && |r.strengths| == 3 && |r.improvements| == 3
  {
    AIQualityResponse(
      (random * 30.0).Floor + 70,
      ["Strong narrative voice detected", "Engaging opening paragraph",
       "Good use of descriptive language"],
      ["Character development", "Pacing", "Dialogue flow"],
      ["Consider varying sentence structure", "Add more sensory details",
       "Strengthen the conclusion"])
  }

  /** Every score from 70 to 99 is produced by some random value. */
  lemma QualityScoreReachable(content: string, score: int)
    requires 70 <= score <= 99
    ensures var random := (score - 70) as real / 30.0;
            0.0 <= random < 1.0 && CheckQuality(content, random).score == score
  {
    var random := (score - 70) as real / 30.0;
    assert random * 30.0 == (score - 70) as real;
  }

  /** `proofreadAI`: runs of two or more whitespace characters become one
      space, a lone whitespace character stays, then the text is trimmed;
      the two corrections are fixed. */
  function Proofread(content: string): (r: AIProofreadResponse)
    ensures r.correctedText == Trim(Interleave(SplitSpaces(content), ShrinkRuns(SpaceRuns(content))))
    ensures IsTrimmed(r.correctedText) && NoDoubleSpace(r.correctedText)
    ensures NonSpaces(r.correctedText) == NonSpaces(content)
    ensures |r.corrections| == 2
  {
    var text := Trim(CollapseSpaces(content));
    CollapsedTrimmed(content);
    CollapseSpacesByRuns(content);
    AIProofreadResponse(
      text,
      [Correction("recieve", "receive", "Spelling error - i before e except after c"),
       Correction("thier", "their", "Common spelling mistake")],
      "Found 2 corrections. Overall grammar and structure look good!")
  }

  lemma CollapsedTrimmed(content: string)
    ensures var text := Trim(CollapseSpaces(content));
      && IsTrimmed(text) && NoDoubleSpace(text)
      && NonSpaces(text) == NonSpaces(content)
  {
    var collapsed := CollapseSpaces(content);
    CollapseSpacesShape(content);
    var text := Trim(collapsed);
    NoDoubleSpaceSlice(collapsed, LeadingSpaces(collapsed), LeadingSpaces(collapsed) + |text|);
    TrimNonSpaces(collapsed);
  }

  /** Proofreading corrected text changes nothing more. */
  lemma ProofreadIdempotent(content: string)
    ensures var t := Proofread(content).correctedText;
            Proofread(t).correctedText == t
  {
    var t := Proofread(content).correctedText;
    CollapseSpacesIdentity(t);
    TrimOfTrimmed(t);
  }

  const EmailSentPrefix: string := "Email sent successfully to "
  const EmailSentSuffix: string := " recipient(s)"

  datatype SendResult = SendResult(success: bool, message: string)

  /** `sendEmail`: always succeeds and reports the number of recipients. */
  function SendEmail(email: EmailData): (r: SendResult)
    ensures r.success
    ensures |EmailSentPrefix| + |EmailSentSuffix| < |r.message|
    ensures r.message[..|EmailSentPrefix|] == EmailSentPrefix
    ensures r.message[|r.message| - |EmailSentSuffix|..] == EmailSentSuffix
  {
    var m := EmailSentPrefix + NatToString(|email.to|) + EmailSentSuffix;
    assert m[..|EmailSentPrefix|] == EmailSentPrefix;
    assert m[|m| - |EmailSentSuffix|..] == EmailSentSuffix;
    SendResult(true, m)
  }

  /** The number in the message is the number of recipients. */
  lemma SendEmailCount(email: EmailData)
    ensures var m := SendEmail(email).message;
            ParseDigits(m[|EmailSentPrefix|..|m| - |EmailSentSuffix|]) == |email.to|
  {
    var m := SendEmail(email).message;
    var d := NatToString(|email.to|);
    assert m == EmailSentPrefix + d + EmailSentSuffix;
    assert m[|EmailSentPrefix|..|m| - |EmailSentSuffix|] == d;
    ParseNatToString(|email.to|);
  }

  // ---------------------------------------------------------------------
  // The store

  class MockBackend {
    var contents: seq<Content>
    var comments: seq<Comment>
    var events: seq<Event>
    var users: seq<User>
    var chats: seq<Chat>
    var messages: seq<ChatMessage>
    var notifications: seq<Notification>

    /** What every API function keeps: the next id of each append-only
        array is fresh, e-mail addresses are unique, one chat per writer. */
    ghost predicate Valid()
      reads this
    {
      && ContentsValid() && CommentsValid() && EventsValid()
      && UsersValid() && ChatsValid() && MessagesValid()
    }

    ghost predicate ContentsValid() reads this`contents {
      NumberedBelow(ContentIds(contents), "", |contents|)
    }

    ghost predicate CommentsValid() reads this`comments {
      NumberedBelow(CommentIds(comments), "c", |comments|)
    }

    ghost predicate EventsValid() reads this`events {
      NumberedBelow(EventIds(events), "ev", |events|)
    }

    ghost predicate UsersValid() reads this`users {
      EmailsUnique(users)
    }

    ghost predicate ChatsValid() reads this`chats {
      NumberedBelow(ChatIds(chats), "chat", |chats|) && WritersUnique(chats)
    }

    ghost predicate MessagesValid() reads this`messages {
      NumberedBelow(MessageIds(messages), "msg", |messages|)
    }

    /** The seed arrays. */
    constructor (contents0: seq<Content>, comments0: seq<Comment>, events0: seq<Event>,
                 users0: seq<User>, chats0: seq<Chat>, messages0: seq<ChatMessage>,
                 notifications0: seq<Notification>)
      requires NumberedBelow(ContentIds(contents0), "", |contents0|)
      requires NumberedBelow(CommentIds(comments0), "c", |comments0|)
      requires NumberedBelow(EventIds(events0), "ev", |events0|)
      requires NumberedBelow(ChatIds(chats0), "chat", |chats0|)
      requires NumberedBelow(MessageIds(messages0), "msg", |messages0|)
      requires EmailsUnique(users0) && WritersUnique(chats0)
      ensures Valid()
      ensures contents == contents0 && comments == comments0 && events == events0
      ensures users == users0 && chats == chats0 && messages == messages0
      ensures notifications == notifications0
    {
      contents, comments, events := contents0, comments0, events0;
      users, chats, messages, notifications := users0, chats0, messages0, notifications0;
    }

    // ---- contents ----

    /** `fetchContents(page, pageSize, status)`. */
    function FetchContents(page: int, pageSize: nat, status: Option<ContentStatus>): (r: PaginatedResponse<Content>)
      reads this
      requires pageSize > 0
      ensures r.total == |ByStatus(contents, status)| && r.page == page && r.pageSize == pageSize
      ensures forall c :: c in r.data ==> c in contents && HasStatus(c, status)
      ensures |r.data| <= pageSize
      ensures (r.totalPages - 1) * pageSize < r.total <= r.totalPages * pageSize
              || (r.total == 0 && r.totalPages == 0)
      ensures page >= 1 ==>
        var items, start := ByStatus(contents, status), PageStart(page, pageSize);
        r.data == items[Min(start, |items|)..Min(start + pageSize, |items|)]
    {
      Paginate(ByStatus(contents, status), page, pageSize)
    }

    /** `fetchContentById(id)`, `null` as `None`. */
    function FetchContentById(id: string): (r: Option<Content>)
      reads this
      ensures r.None? <==> forall i :: 0 <= i < |contents| ==> contents[i].id != id
      ensures r.Some? ==> r.value in contents && r.value.id == id
    {
      Find(contents, (c: Content) => c.id == id)
    }

    /** `fetchCommentsByContentId(contentId)`. */
    function FetchCommentsByContentId(contentId: string): (r: seq<Comment>)
      reads this
      ensures forall c :: c in r <==> c in comments && c.contentId == contentId
    {
      Filter(comments, (c: Comment) => c.contentId == contentId)
    }

    /** `submitContent`: the new content goes to the front, under the next number. */
    method SubmitContent(t: ContentType, title: string, text: string, now: Timestamp) returns (c: Content)
      requires Valid()
      modifies this`contents
      ensures Valid()
      ensures c == NewContent(|old(contents)|, t, title, text, now)
      ensures c.id !in ContentIds(old(contents))
      ensures contents == [c] + old(contents)
    {
      c := NewContent(|contents|, t, title, text, now);
      NextIdFresh(ContentIds(contents), "", |contents|);
      assert "" + c.id == c.id;
      assert ContentIds([c] + contents) == [c.id] + ContentIds(contents);
      contents := [c] + contents;
    }

    /** `addComment`: the new comment goes to the end. */
    method AddComment(contentId: string, text: string, now: Timestamp) returns (c: Comment)
      requires Valid()
      modifies this`comments
      ensures Valid()
      ensures c == NewComment(|old(comments)|, contentId, text, now)
      ensures c.id !in CommentIds(old(comments))
      ensures comments == old(comments) + [c]
    {
      c := NewComment(|comments|, contentId, text, now);
      NextIdFresh(CommentIds(comments), "c", |comments|);
      assert CommentIds(comments + [c]) == CommentIds(comments) + [c.id];
      comments := comments + [c];
    }

    // ---- events ----

    /** `fetchEvents`: a copy, newest first. */
    function FetchEvents(): (r: seq<Event>)
      reads this
      ensures SortedBy(r, EventRecency) && multiset(r) == multiset(events)
    {
      SortByKey(events, EventRecency)
    }

    /** `fetchEventById(id)`. */
    function FetchEventById(id: string): (r: Option<Event>)
      reads this
      ensures r.None? <==> forall i :: 0 <= i < |events| ==> events[i].id != id
      ensures r.Some? ==> r.value in events && r.value.id == id
    {
      Find(events, (e: Event) => e.id == id)
    }

    /** `createEvent`: the new event goes to the front. */
    method CreateEvent(data: CreateEventData, now: Timestamp) returns (e: Event)
      requires Valid()
      modifies this`events
      ensures Valid()
      ensures e == NewEvent(|old(events)|, data, now)
      ensures e.id !in EventIds(old(events))
      ensures events == [e] + old(events)
    {
      e := NewEvent(|events|, data, now);
      NextIdFresh(EventIds(events), "ev", |events|);
      assert EventIds([e] + events) == [e.id] + EventIds(events);
      events := [e] + events;
    }

    // ---- users ----

    /** `fetchUsers`: a copy, newest first. */
    function FetchUsers(): (r: seq<User>)
      reads this
      ensures SortedBy(r, UserRecency) && multiset(r) == multiset(users)
    {
      SortByKey(users, UserRecency)
    }

    /** `createUser`: refused when the address is taken, else the new user
        goes to the front. */
    method CreateUser(data: CreateUserData, now: Timestamp) returns (r: Result<User>)
      requires Valid()
      modifies this`users
      ensures Valid()
      ensures EmailTaken(old(users), data.email) ==>
        r == Err("Email already exists") && users == old(users)
      ensures !EmailTaken(old(users), data.email) ==>
        r == Ok(NewUser(|old(users)|, data, now)) && users == [r.value] + old(users)
    {
      if exists i :: 0 <= i < |users| && users[i].email == data.email {
        return Err("Email already exists");
      }
      var u := NewUser(|users|, data, now);
      AddUserKeepsEmailsUnique(users, u);
      users := [u] + users;
      r := Ok(u);
    }

    /** `banUser`: the first user with the id becomes banned. */
    method BanUser(userId: string) returns (r: Result<User>)
      requires Valid()
      modifies this`users
      ensures Valid()
      ensures var k := UserIndex(old(users), userId);
              if k < 0 then r == Err("User not found") && users == old(users)
              else users == old(users)[k := old(users)[k].(status := Banned)] && r == Ok(users[k])
    {
      var k := UserIndex(users, userId);
      if k < 0 {
        return Err("User not found");
      }
      var u := users[k].(status := Banned);
      ghost var before := users;
      users := users[k := u];
      assert forall i :: 0 <= i < |users| ==> users[i].email == before[i].email;
      r := Ok(u);
    }

    /** `removeUser`: the first user with the id is spliced out. */
    method RemoveUser(userId: string) returns (r: Result<()>)
      requires Valid()
      modifies this`users
      ensures Valid()
      ensures var k := UserIndex(old(users), userId);
              if k < 0 then r == Err("User not found") && users == old(users)
              else r == Ok(()) && users == old(users)[..k] + old(users)[k + 1..]
    {
      var k := UserIndex(users, userId);
      if k < 0 {
        return Err("User not found");
      }
      RemoveUserKeepsEmailsUnique(users, k);
      users := users[..k] + users[k + 1..];
      r := Ok(());
    }

    // ---- chats ----

    /** `fetchChats`: every chat with its last message and unread count,
        most recently updated first. */
    function FetchChats(): (r: seq<Chat>)
      reads this
      ensures SortedBy(r, ChatRecency)
      ensures multiset(r) == multiset(Summaries(chats, messages))
    {
      SortByKey(Summaries(chats, messages), ChatRecency)
    }

    /** `fetchChatMessages(chatId)`: the chat's messages, oldest first. */
    function FetchChatMessages(chatId: string): (r: seq<ChatMessage>)
      reads this
      ensures SortedBy(r, MessageTime)
      ensures multiset(r) == multiset(MessagesOf(messages, chatId))
      ensures forall m :: m in r ==> m in messages && m.chatId == chatId
    {
      var r := SortByKey(MessagesOf(messages, chatId), MessageTime);
      SortedMessagesOf(messages, chatId, r);
      r
    }

    /** `sendMessage`: the admin's message goes to the end; the first chat
        with that id, if any, takes `now` as its update time. */
    method SendMessage(data: SendMessageData, now: Timestamp) returns (m: ChatMessage)
      requires Valid()
      modifies this`messages, this`chats
      ensures Valid()
      ensures m == NewMessage(|old(messages)|, data, now)
      ensures m.id !in MessageIds(old(messages))
      ensures messages == old(messages) + [m]
      ensures var k := ChatIndex(old(chats), data.chatId);
              chats == if k < 0 then old(chats) else old(chats)[k := old(chats)[k].(updatedAt := now)]
    {
      m := NewMessage(|messages|, data, now);
      NextIdFresh(MessageIds(messages), "msg", |messages|);
      assert MessageIds(messages + [m]) == MessageIds(messages) + [m.id];
      messages := messages + [m];
      var k := ChatIndex(chats, data.chatId);
      if k >= 0 {
        TouchChat(chats, k, now);
        chats := chats[k := chats[k].(updatedAt := now)];
      }
    }

    /** `createChat(writerId)`: the writer's existing chat, else a new chat
        for a known user at the front; afterwards the writer's chat is the
        one returned, so asking again returns the same chat. */
    method CreateChat(writerId: string, now: Timestamp) returns (r: Result<Chat>)
      requires Valid()
      modifies this`chats
      ensures Valid()
      ensures var k := WriterChatIndex(old(chats), writerId);
              k >= 0 ==> r == Ok(old(chats)[k]) && chats == old(chats)
      ensures WriterChatIndex(old(chats), writerId) < 0 && UserIndex(users, writerId) < 0 ==>
        r == Err("Writer not found") && chats == old(chats)
      ensures var j := UserIndex(users, writerId);
              WriterChatIndex(old(chats), writerId) < 0 && j >= 0 ==>
        r == Ok(NewChat(|old(chats)|, users[j], now)) && chats == [r.value] + old(chats)
      ensures r.Ok? ==> var k := WriterChatIndex(chats, writerId);
                        k >= 0 && chats[k] == r.value
    {
      var k := WriterChatIndex(chats, writerId);
      if k >= 0 {
        return Ok(chats[k]);
      }
      var j := UserIndex(users, writerId);
      if j < 0 {
        return Err("Writer not found");
      }
      var c := NewChat(|chats|, users[j], now);
      PrependChat(chats, c);
      chats := [c] + chats;
      r := Ok(c);
    }

    // ---- notifications ----

    /** `getUnreadNotificationsCount`. */
    function UnreadCount(): (r: nat)
      reads this
      ensures r <= |notifications|
      ensures r == 0 <==> forall i :: 0 <= i < |notifications| ==> notifications[i].read
    {
      var unread := Filter(notifications, (n: Notification) => !n.read);
      assert unread == [] <==> forall i :: 0 <= i < |notifications| ==> notifications[i].read by {
        if unread != [] {
          assert unread[0] in unread;
        } else {
          assert forall i :: 0 <= i < |notifications| ==> notifications[i] !in unread;
        }
      }
      |unread|
    }

    /** `fetchNotifications`: sorts the stored array itself, newest first,
        and returns that array. */
    method FetchNotifications() returns (r: seq<Notification>)
      modifies this`notifications
      ensures SortedBy(notifications, NotificationRecency)
      ensures multiset(notifications) == multiset(old(notifications))
      ensures r == notifications
    {
      notifications := SortByKey(notifications, NotificationRecency);
      r := notifications;
    }

    /** `markNotificationAsRead(id)`: the first notification with the id
        becomes read; an unknown id changes nothing. */
    method MarkNotificationAsRead(id: string)
      modifies this`notifications
      ensures var k := NotificationIndex(old(notifications), id);
              notifications == if k < 0 then old(notifications)
                               else old(notifications)[k := old(notifications)[k].(read := true)]
    {
      var k := NotificationIndex(notifications, id);
      if k >= 0 {
        notifications := notifications[k := notifications[k].(read := true)];
      }
    }

    /** `markAllNotificationsAsRead`: every notification becomes read and
        nothing else about it changes. */
    method MarkAllNotificationsAsRead()
      modifies this`notifications
      ensures |notifications| == |old(notifications)|
      ensures forall i :: 0 <= i < |notifications| ==>
        notifications[i] == old(notifications)[i].(read := true)
      ensures UnreadCount() == 0
    {
      var i := 0;
      while i < |notifications|
        invariant i <= |notifications| == |old(notifications)|
        invariant forall j :: 0 <= j < i ==> notifications[j] == old(notifications)[j].(read := true)
        invariant forall j :: i <= j < |notifications| ==> notifications[j] == old(notifications)[j]
      {
        notifications := notifications[i := notifications[i].(read := true)];
        i := i + 1;
      }
    }
  }
}
