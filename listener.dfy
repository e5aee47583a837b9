/** The worker itself (mail2mattermost.py:35-130): an object holding the
    content store, the mailbox's unread flags and the log of effects, whose
    methods perform one poll cycle step by step. Each method is proved to
    leave exactly the state that the matching function of module Pipeline
    describes. */
module Listener {
  import opened Mail
  import opened Text
  import opened Compose
  import opened Pipeline

  class EmailListener {
    const config: Config
    const sha256: Bytes -> HexDigest
    /** The paths that exist as files. */
    var store: set<string>
    /** The mailbox's unread flag of each message. */
    var unread: map<Uid, bool>
    /** Everything the worker has done to the outside world, in order. */
    var log: seq<Effect>

    function Ctx(): Context {
      Context(config, sha256)
    }

    function Snapshot(): State
      reads this
    {
      State(store, unread, log)
    }

    constructor (config: Config, sha256: Bytes -> HexDigest, store: set<string>, unread: map<Uid, bool>)
      ensures this.config == config && this.sha256 == sha256
      ensures Snapshot() == State(store, unread, [])
    {
      this.config := config;
      this.sha256 := sha256;
      this.store := store;
      this.unread := unread;
      this.log := [];
    }

    /** The body of the inner loop (mail2mattermost.py:57-117). */
    method HandleAttachment(server: ChatServer, m: Message, att: Attachment)
      modifies this
      ensures Snapshot() == AttachmentStep(Ctx(), server, old(Snapshot()), m, att)
    {
      if !Contains(att.contentType, "image") {
        var digest := sha256(att.content);
        var path := config.workingDir + config.dataFolder + digest;
        if path !in store {
          store := store + {path};
          log := log + [Write(path, att.content)];
          var reply := server.uploadReply(|log|);
          log := log + [UploadRequest(config, digest, path)];
          match reply {
            case UploadFailed =>
            case FileInfos(ids) =>
              if |ids| > 0 {
                var msg := ComposeMessage(m, att, digest);
                log := log + [PostRequest(config, msg, ids[0])];
              }
          }
        }
      }
    }

    /** The inner loop over a message's attachments (mail2mattermost.py:56-117). */
    method HandleAttachments(server: ChatServer, m: Message)
      modifies this
      ensures Snapshot() == AttachmentsStep(Ctx(), server, old(Snapshot()), m, m.attachments)
    {
      var atts := m.attachments;
      var i := 0;
      while i < |atts|
        invariant 0 <= i <= |atts|
        invariant AttachmentsStep(Ctx(), server, Snapshot(), m, atts[i..])
               == AttachmentsStep(Ctx(), server, old(Snapshot()), m, atts)
      {
        assert atts[i..][1..] == atts[i + 1..];
        HandleAttachment(server, m, atts[i]);
        i := i + 1;
      }
    }

    /** Marking one message as read (mail2mattermost.py:119 and 128). */
    method MarkAsSeen(uid: Uid)
      modifies this
      ensures Snapshot() == SeenStep(old(Snapshot()), uid)
    {
      unread := unread[uid := false];
      log := log + [MarkSeen(uid)];
    }

    /** One poll cycle (mail2mattermost.py:42-128). */
    method RunCycle(input: CycleInput) returns (outcome: Outcome)
      modifies this
      ensures (Snapshot(), outcome) == CycleStep(Ctx(), old(Snapshot()), input)
      ensures outcome.Exit? <==> !input.connected
      ensures outcome.Exit? ==> outcome.status == 2 && Snapshot() == old(Snapshot())
    {
      if !input.connected {
        return Exit(2);
      }
      match input.fetch {
        case FetchFailed =>
          return Continue;
        case Fetched(batch, fault) =>
          ghost var n := Completed(batch, fault);
          ghost var done := BatchStep(Ctx(), input.server, old(Snapshot()), batch[..n]);
          assert batch[0..n] == batch[..n];
          var i := 0;
          var escaped := false;
          while i < |batch| && !escaped
            invariant 0 <= i <= n
            invariant !escaped ==> BatchStep(Ctx(), input.server, Snapshot(), batch[i..n]) == done
            invariant escaped ==> i == n < |batch| && fault.Escape? && fault.started
            invariant escaped ==> Snapshot() == AttachmentsStep(Ctx(), input.server, done, batch[n].1, batch[n].1.attachments)
            decreases |batch| - i, !escaped
          {
            var uid, message := batch[i].0, batch[i].1;
            if fault.Escape? && fault.at == i && !fault.started {
              // fetching this message failed
              break;
            }
            HandleAttachments(input.server, message);
            if fault.Escape? && fault.at == i {
              // marking it seen failed
              escaped := true;
            } else {
              assert batch[i..n][1..] == batch[i + 1..n];
              MarkAsSeen(uid);
              i := i + 1;
            }
          }
          if i < |batch| && fault.markInFlight {
            // the error handler marks the in-flight message seen
            MarkAsSeen(batch[i].0);
          }
          return Continue;
      }
    }

    /** Consecutive poll cycles, as the endless loop runs them
        (mail2mattermost.py:41-130): stops with the exit status of the first
        cycle that ends the worker. */
    method Run(inputs: seq<CycleInput>) returns (exit: Option<int>)
      modifies this
      ensures (Snapshot(), exit) == Cycles(Ctx(), old(Snapshot()), inputs)
    {
      var k := 0;
      while k < |inputs|
        invariant 0 <= k <= |inputs|
        invariant Cycles(Ctx(), Snapshot(), inputs[k..]) == Cycles(Ctx(), old(Snapshot()), inputs)
      {
        assert inputs[k..][1..] == inputs[k + 1..];
        var outcome := RunCycle(inputs[k]);
        if outcome.Exit? {
          return Some(outcome.status);
        }
        k := k + 1;
      }
      return None;
    }
  }
}
