/** Data model of one mail-to-chat worker: the messages it reads, the
    configuration it is given, the answers of the outside world and the
    effects it leaves behind. */
module Mail {

  datatype Option<T> = None | Some(value: T)

  /** One octet of attachment content. */
  newtype Byte = x: int | 0 <= x < 256

  type Bytes = seq<Byte>

  /** A message's unique identifier on the IMAP server (RFC 3501, section 2.3.1.1). */
  type Uid = nat

  /** An identifier the chat server assigns to an uploaded file. */
  type FileId = string

  predicate IsLowerHexDigit(c: char) {
    '0' <= c <= '9' || 'a' <= c <= 'f'
  }

  /** The shape of `hexdigest()` of a SHA-256 hash (FIPS 180-4, section 6.2):
      32 bytes written as 64 lower-case hexadecimal characters. */
  predicate IsHexDigest(s: string) {
    |s| == 64 && forall i :: 0 <= i < |s| ==> IsLowerHexDigit(s[i])
  }

  type HexDigest = s: string | IsHexDigest(s)
    witness seq(64, _ => '0')

  /** An attachment as the mail library hands it over: the declared content
      type (always present), the file name (absent when the part names none)
      and the raw bytes of its content stream. */
  datatype Attachment = Attachment(contentType: string, filename: Option<string>, content: Bytes)

  /** The fields of a mail message that the worker reads. A header field is
      `None` when reading it fails, which the worker treats as unavailable. */
  datatype Message = Message(
    subject: Option<string>,
    sender: Option<string>,
    date: Option<string>,
    attachments: seq<Attachment>)

  /** The account settings the worker uses: the chat server's base URL, the
      channel to post into, the bearer token, and the two strings whose
      concatenation prefixes every stored file's path. */
  datatype Config = Config(
    serverUrl: string,
    channelId: string,
    bearer: string,
    workingDir: string,
    dataFolder: string)

  /** Everything that stays fixed while the worker runs: its configuration and
      the hash function it uses. SHA-256 itself is not modelled; any function
      producing 64 lower-case hex characters stands in for it. */
  datatype Context = Context(config: Config, sha256: Bytes -> HexDigest)

  /** The chat server's answer to a file upload: the parsed `file_infos` ids,
      or a failure (network error, non-JSON answer, missing key). */
  datatype UploadReply = FileInfos(ids: seq<FileId>) | UploadFailed

  /** The chat server's behaviour: the answer it gives to the upload that is
      recorded at position `n` of the effect log. */
  datatype ChatServer = ChatServer(uploadReply: nat -> UploadReply)

  /** The externally visible actions of the worker, in the order performed. */
  datatype Effect =
    | Write(path: string, content: Bytes)
    | Upload(url: string, authorization: string, channelId: string, clientId: string,
             fileName: string, path: string)
    | Post(url: string, authorization: string, channelId: string, message: string,
           fileIds: seq<FileId>)
    | MarkSeen(uid: Uid)

  /** How processing of a fetched batch ends. `Escape(at, started, markInFlight)`
      says that a failure escaped the per-message loop while message `at` was in
      flight: `started` tells whether that message's attachment loop had run
      (the failure came from marking it seen) and `markInFlight` whether the
      error handler then managed to mark it seen. */
  datatype Fault = NoFault | Escape(at: nat, started: bool, markInFlight: bool)

  /** The answer to the query for unread messages. */
  datatype Fetch = FetchFailed | Fetched(batch: seq<(Uid, Message)>, fault: Fault)

  /** What the outside world does during one poll cycle. */
  datatype CycleInput = CycleInput(connected: bool, fetch: Fetch, server: ChatServer)

  /** How a cycle ends: go on polling, or terminate the worker process. */
  datatype Outcome = Continue | Exit(status: int)
}
