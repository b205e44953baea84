/** Values shared by the coordinator, the downloader and the analysis cache:
    the records of src/data.rs, the error enums of src/error.rs and the
    outbound messages of src/messages.rs. */
module Types {

  /** Rust's `u8` and `u16`. */
  type u8 = x: int | 0 <= x < 0x100
  type u16 = x: int | 0 <= x < 0x1_0000

  type Bytes = seq<bv8>

  /** Session ids are random `usize` values; client ids coincide with them. */
  type SessionId = nat
  type ClientId = nat

  type ProjectId = string
  type Seed = string
  type VideoId = string

  datatype Option<+T> = None | Some(value: T)

  datatype Result<+T, +E> = Ok(value: T) | Err(error: E)

  /** The delivery channel registered by `Connect`; opaque to the coordinator. */
  datatype Channel = Channel(address: nat)

  /** An IEEE-754 double kept as its bit pattern: the model never computes with times. */
  datatype F64 = F64(bits: bv64)

  /** One clip slice: which source video, and the start and end times inside it. */
  datatype Phonem = Phonem(videoIndex: u8, startTime: F64, endTime: F64)

  type Combo = seq<Phonem>

  /** The alternatives the analysis engine proposes for one sentence. */
  type AnalysisResult = seq<Combo>

  /** The engine's report that one word of the sentence is ambiguous. */
  datatype AmbiguityError = AmbiguityError(word: string)

  /** One line of a project: its text and the chosen alternative. */
  datatype Segment = Segment(sentence: string, comboIndex: u16)

  /** `Segment::new`: a fresh segment selects the first alternative. */
  function NewSegment(sentence: string): (s: Segment)
    ensures s.sentence == sentence && s.comboIndex == 0
  {
    Segment(sentence, 0)
  }

  datatype Project = Project(seed: Seed, videoIds: seq<VideoId>, name: ProjectId, segments: seq<Segment>)

  /** `Project::new`: a project starts without segments. */
  function NewProject(name: ProjectId, seed: Seed, videoIds: seq<VideoId>): (p: Project)
    ensures p.name == name && p.seed == seed && p.videoIds == videoIds && p.segments == []
  {
    Project(seed, videoIds, name, [])
  }

  /** A locally available video, named after its source id. */
  datatype Video = Video(url: VideoId)

  /** One cached preview sent to a joining client. */
  datatype Preview = Preview(data: Bytes, segment: Segment)

  datatype ServerError =
    | ProjectDoesNotExist
    | ProjectAlreadyExists
    | EmptyUrls
    | SegmentOutOfBounds
    | UserAlreadyJoinedProject
    | CommunicationError

  /** The downloader's answer to a status query (`DownloadVideoResult`). */
  datatype DownloadVideoResult =
    | NeverDownloaded
    | DonwloadStarted
    | DownloadPending
    | AlreadyDownloaded

  /** The messages the server sends to clients. Payloads that the source
      base64-encodes are kept as the raw bytes read from disk. The declared
      `UpdateDownloadStatus` variant is omitted: no handler ever sends it. */
  datatype ServerRequest =
    | JoinedUsers(users: seq<ClientId>)
    | UserJoinedProject(user: ClientId)
    | UserLeftProject(user: ClientId)
    | PreviewReady(data: Bytes, segment: Segment)
    | Previews(previews: seq<Preview>)
    | ChangeProject(seed: Seed, videoUrls: seq<VideoId>, name: ProjectId, segments: seq<Segment>)
    | ChangeProjectName(newName: ProjectId)
    | NewProjectCreated(project: Project)
    | RemoveProject(name: ProjectId)
    | NewSegmentInserted(segment: Segment, row: nat)
    | RemoveSegmentAt(row: nat)
    | ChangeComboIndex(row: nat, comboIndex: u16)
    | ChangeSentence(row: nat, sentence: string)
    | ChangeListProjects(projects: seq<Project>)
    | RenderResult(hash: string, data: Bytes)
    | AmbiguityToken(row: nat, token: string)

  /** The messages that report a structural edit of a segment list. */
  predicate IsStructural(m: ServerRequest) {
    m.NewSegmentInserted? || m.ChangeSentence? || m.ChangeComboIndex?
  }

  /** One broadcast: a message and the sessions it is sent to. */
  datatype Delivery = Delivery(to: set<SessionId>, msg: ServerRequest)

  /** What the coordinator learns from the downloader when it asks for the
      project's videos: the mailbox may be full, or some id is not ready. */
  datatype VideosOutcome =
    | MailboxFull
    | NotReady(status: DownloadVideoResult)
    | Ready(videos: seq<Video>)
}
