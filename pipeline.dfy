/** What one poll cycle of the worker does (mail2mattermost.py:41-130),
    stated as functions from the state before to the state after. The class
    in module Listener performs the same steps in place; the lemmas in module
    Properties are about these functions. */
module Pipeline {
  import opened Mail
  import opened Text
  import opened Compose

  /** The part of the world the worker changes: the set of paths that exist
      as files, the mailbox's unread flags by uid, and the log of effects. */
  datatype State = State(store: set<string>, unread: map<Uid, bool>, log: seq<Effect>)

  /** Where an attachment with this digest is stored: the working directory,
      the data folder and the digest, concatenated with no separator added. */
  function StorePath(config: Config, digest: string): string {
    config.workingDir + config.dataFolder + digest
  }

  /** Attachments whose content type mentions "image" anywhere are skipped. */
  predicate Eligible(att: Attachment) {
    !Contains(att.contentType, "image")
  }

  /** The multipart upload of a stored file: channel id, the digest as client
      id, and the file under its base name, with a bearer token. */
  function UploadRequest(config: Config, digest: string, path: string): Effect {
    Upload(config.serverUrl + "/api/v4/files", "Bearer " + config.bearer, config.channelId,
           digest, Basename(path), path)
  }

  /** The post announcing one uploaded file, in the configured channel. */
  function PostRequest(config: Config, text: string, fileId: FileId): Effect {
    Post(config.serverUrl + "/api/v4/posts", "Bearer " + config.bearer, config.channelId,
         text, [fileId])
  }

  /** One attachment. A skipped or already stored attachment changes nothing.
      Otherwise the content is written under its digest's path, then
      uploaded, and, when the upload answers with at least one file id, a
      post referring to the first id is sent. A failed upload, or an answer
      without ids, ends the attachment's processing with the file stored. */
  function AttachmentStep(ctx: Context, server: ChatServer, s: State, m: Message, att: Attachment): State {
    if !Eligible(att) then s
    else
      var digest := ctx.sha256(att.content);
      var path := StorePath(ctx.config, digest);
      if path in s.store then s
      else
        var written := State(s.store + {path}, s.unread, s.log + [Write(path, att.content)]);
        var reply := server.uploadReply(|written.log|);
        var uploaded := written.(log := written.log + [UploadRequest(ctx.config, digest, path)]);
        match reply
        case UploadFailed => uploaded
        case FileInfos(ids) =>
          if |ids| == 0 then uploaded
          else uploaded.(log := uploaded.log + [PostRequest(ctx.config, PostText(m, att, digest), ids[0])])
  }

  /** All attachments of a message, in order; a failure on one never stops
      the next. */
  function AttachmentsStep(ctx: Context, server: ChatServer, s: State, m: Message, atts: seq<Attachment>): State
    decreases |atts|
  {
    if atts == [] then s
    else AttachmentsStep(ctx, server, AttachmentStep(ctx, server, s, m, atts[0]), m, atts[1..])
  }

  /** Marking a message as seen on the server. */
  function SeenStep(s: State, uid: Uid): State {
    s.(unread := s.unread[uid := false], log := s.log + [MarkSeen(uid)])
  }

  /** One message: its attachments, then marking it seen. */
  function MessageStep(ctx: Context, server: ChatServer, s: State, uid: Uid, m: Message): State {
    SeenStep(AttachmentsStep(ctx, server, s, m, m.attachments), uid)
  }

  /** The messages of a batch, in order. */
  function BatchStep(ctx: Context, server: ChatServer, s: State, batch: seq<(Uid, Message)>): State
    decreases |batch|
  {
    if batch == [] then s
    else BatchStep(ctx, server, MessageStep(ctx, server, s, batch[0].0, batch[0].1), batch[1..])
  }

  /** How many messages of the batch are completely processed. */
  function Completed(batch: seq<(Uid, Message)>, fault: Fault): (n: nat)
    ensures n <= |batch|
  {
    if fault.Escape? && fault.at < |batch| then fault.at else |batch|
  }

  /** One poll cycle. A failed connection ends the worker with status 2 and
      changes nothing. A failed fetch changes nothing. Otherwise the batch is
      processed until a failure escapes, after which the error handler may
      mark the in-flight message seen; later messages stay untouched. */
  function CycleStep(ctx: Context, s: State, input: CycleInput): (State, Outcome) {
    if !input.connected then (s, Exit(2))
    else match input.fetch
      case FetchFailed => (s, Continue)
      case Fetched(batch, fault) =>
        var n := Completed(batch, fault);
        var done := BatchStep(ctx, input.server, s, batch[..n]);
        if n == |batch| then (done, Continue)
        else
          var uid, m := batch[n].0, batch[n].1;
          var started := if fault.started then AttachmentsStep(ctx, input.server, done, m, m.attachments) else done;
          (if fault.markInFlight then SeenStep(started, uid) else started, Continue)
  }

  /** A run of consecutive poll cycles, ending early when one exits. */
  function Cycles(ctx: Context, s: State, inputs: seq<CycleInput>): (State, Option<int>)
    decreases |inputs|
  {
    if inputs == [] then (s, None)
    else
      var (next, outcome) := CycleStep(ctx, s, inputs[0]);
      if outcome.Exit? then (next, Some(outcome.status))
      else Cycles(ctx, next, inputs[1..])
  }
}
