/** The records the admin interface exchanges with its backend.
    Timestamps, which the program stores as ISO-8601 strings and compares
    through `new Date(..).getTime()`, are modelled by that number of
    milliseconds. */
module Types {
  import opened Wrappers

  type Timestamp = int

  // ---- content ----

  datatype ContentStatus = Submitted | UnderReview | Approved | Rejected

  datatype ContentType = StoryType | PoemType

  /** The part that differs between a story and a poem. */
  datatype ContentKind =
    | Story(wordCount: nat, genre: Option<string>)
    | Poem(lines: nat, style: Option<string>)

  datatype Content = Content(
    id: string,
    title: string,
    content: string,
    status: ContentStatus,
    createdAt: Timestamp,
    updatedAt: Timestamp,
    authorId: string,
    authorName: string,
    kind: ContentKind)
  {
    function Type(): ContentType {
      if kind.Story? then StoryType else PoemType
    }
  }

  datatype Comment = Comment(
    id: string,
    contentId: string,
    authorId: string,
    authorName: string,
    text: string,
    createdAt: Timestamp,
    isReviewer: bool)

  // ---- events ----

  datatype Period = Period(startDate: string, endDate: string)

  datatype SiblingEvent = SiblingEvent(id: string, name: string, timePeriod: Period)

  datatype Event = Event(
    id: string,
    name: string,
    duration: int,
    timePeriod: Period,
    siblingEvent: Option<SiblingEvent>,
    resultsReleased: bool,
    teamMembers: seq<string>,
    createdAt: Timestamp,
    updatedAt: Timestamp)

  datatype CreateEventData = CreateEventData(
    name: string,
    duration: int,
    timePeriod: Period,
    hasSiblingEvent: bool,
    siblingEventName: Option<string>,
    siblingTimePeriod: Option<Period>,
    resultsReleased: bool,
    teamMembers: seq<string>)

  // ---- notifications ----

  datatype NotificationType = CommentNotice | Submission | Approval | Rejection | MessageNotice | SystemNotice

  datatype Notification = Notification(
    id: string,
    notificationType: NotificationType,
    title: string,
    message: string,
    read: bool,
    createdAt: Timestamp,
    actionUrl: Option<string>)

  // ---- users ----

  datatype UserStatus = Active | Banned

  datatype User = User(
    id: string,
    fullName: string,
    email: string,
    password: string,
    status: UserStatus,
    createdAt: Timestamp,
    lastLogin: Option<Timestamp>)

  datatype CreateUserData = CreateUserData(fullName: string, email: string, password: string)

  datatype EmailData = EmailData(to: seq<string>, subject: string, message: string)

  // ---- chats ----

  datatype SenderRole = Admin | Writer

  datatype ChatMessage = ChatMessage(
    id: string,
    chatId: string,
    senderId: string,
    senderName: string,
    senderRole: SenderRole,
    message: string,
    timestamp: Timestamp,
    read: bool)

  datatype Chat = Chat(
    id: string,
    writerId: string,
    writerName: string,
    writerEmail: string,
    lastMessage: Option<ChatMessage>,
    unreadCount: nat,
    createdAt: Timestamp,
    updatedAt: Timestamp)

  datatype SendMessageData = SendMessageData(chatId: string, message: string)

  // ---- workspace ----

  datatype WorkspaceFolder = WorkspaceFolder(
    id: string,
    name: string,
    parentId: Option<string>,
    createdAt: Timestamp,
    modifiedAt: Timestamp,
    color: Option<string>)

  datatype WorkspaceFile = WorkspaceFile(
    id: string,
    name: string,
    folderId: string,
    fileType: string,
    size: nat,
    createdAt: Timestamp,
    modifiedAt: Timestamp,
    sharedWith: Option<seq<string>>,
    downloadUrl: Option<string>)

  datatype StorageQuota = StorageQuota(total: nat, used: nat, percentage: real)

  datatype EmailTheme = Professional | Modern | Minimal

  datatype ShareSettings = ShareSettings(
    fileId: string,
    emails: seq<string>,
    theme: EmailTheme,
    message: Option<string>,
    includeLink: bool)

  datatype BreadcrumbItem = BreadcrumbItem(id: string, name: string)

  // ---- API envelopes ----

  datatype PaginatedResponse<T> = PaginatedResponse(
    data: seq<T>,
    total: nat,
    page: int,
    pageSize: nat,
    totalPages: nat)

  datatype Correction = Correction(original: string, corrected: string, reason: string)

  datatype AIQualityResponse = AIQualityResponse(
    score: int,
    feedback: seq<string>,
    strengths: seq<string>,
    improvements: seq<string>)

  datatype AIProofreadResponse = AIProofreadResponse(
    correctedText: string,
    corrections: seq<Correction>,
    summary: string)
}
