/** What the poll cycle of module Pipeline guarantees: the decision taken for
    each attachment, where its content is stored, what a message, a batch
    and a cycle change, and the invariant under which every piece of content
    is written, uploaded and announced at most once, however many cycles
    run. */
module Properties {
  import opened Mail
  import opened Text
  import opened Compose
  import opened Pipeline

  // ----- Store paths -----

  /** The store path is the working directory, then the data folder, then
      the 64 lower-case hex digits of the digest, with nothing in between. */
  lemma StorePathLayout(config: Config, digest: HexDigest)
    ensures var p := StorePath(config, digest);
      var w, f := |config.workingDir|, |config.dataFolder|;
      && |p| == w + f + 64
      && p[..w] == config.workingDir
      && p[w..w + f] == config.dataFolder
      && p[w + f..] == digest
      && forall i :: w + f <= i < |p| ==> IsLowerHexDigit(p[i])
  {
    var p := StorePath(config, digest);
    var w, f := |config.workingDir|, |config.dataFolder|;
    assert p[w + f..] == digest;
    forall i | w + f <= i < |p| ensures IsLowerHexDigit(p[i]) {
      assert p[i] == digest[i - w - f];
    }
  }

  /** Distinct digests are stored under distinct paths. */
  lemma StorePathInjective(config: Config, d1: string, d2: string)
    requires StorePath(config, d1) == StorePath(config, d2)
    ensures d1 == d2
  {
    var n := |config.workingDir + config.dataFolder|;
    assert d1 == StorePath(config, d1)[n..];
    assert d2 == StorePath(config, d2)[n..];
  }

  /** The file name sent with an upload is the last component of the store
      prefix followed by the digest. */
  lemma UploadFileName(config: Config, digest: HexDigest)
    ensures Basename(StorePath(config, digest)) == Basename(config.workingDir + config.dataFolder) + digest
  {
    assert '/' !in digest by {
      forall i | 0 <= i < |digest| ensures digest[i] != '/' {
        assert IsLowerHexDigit(digest[i]);
      }
    }
    BasenameAppend(config.workingDir + config.dataFolder, digest);
  }

  // ----- One attachment -----

  /** The decision for one attachment. Nothing happens when its content type
      contains "image" anywhere or when its path is already stored. Otherwise
      the path joins the store, the write comes first, the upload of that
      path second, and a post follows exactly when the upload answered with
      at least one file id; the post carries the composed text and exactly
      the first id, in the configured channel. */
  lemma AttachmentDecision(ctx: Context, server: ChatServer, s: State, m: Message, att: Attachment)
    ensures var r := AttachmentStep(ctx, server, s, m, att);
      var digest := ctx.sha256(att.content);
      var path := StorePath(ctx.config, digest);
      var n := |s.log|;
      var reply := server.uploadReply(n + 1);
      && r.unread == s.unread
      && ((exists i :: OccursAt(att.contentType, "image", i)) || path in s.store ==> r == s)
      && (!(exists i :: OccursAt(att.contentType, "image", i)) && path !in s.store ==>
            && path !in s.store && r.store == s.store + {path}
            && n + 2 <= |r.log| <= n + 3 && r.log[..n] == s.log
            && r.log[n] == Write(path, att.content)
            && r.log[n + 1] == UploadRequest(ctx.config, digest, path)
            && r.log[n + 1].clientId == digest
            && (|r.log| == n + 3 <==> reply.FileInfos? && |reply.ids| > 0)
            && (|r.log| == n + 3 ==>
                  && r.log[n + 2] == PostRequest(ctx.config, PostText(m, att, digest), reply.ids[0])
                  && r.log[n + 2].channelId == ctx.config.channelId
                  && r.log[n + 2].fileIds == [reply.ids[0]]))
  {
  }

  // ----- Effect logs -----

  /** The uids of the mark-seen effects of a log, in order. */
  function SeenUids(log: seq<Effect>): seq<Uid> {
    if log == [] then []
    else SeenUids(log[..|log| - 1]) + (if log[|log| - 1].MarkSeen? then [log[|log| - 1].uid] else [])
  }

  lemma SeenUidsAppend(log: seq<Effect>, e: Effect)
    ensures SeenUids(log + [e]) == SeenUids(log) + (if e.MarkSeen? then [e.uid] else [])
  {
    assert (log + [e])[..|log|] == log;
  }

  lemma Reassociate<T>(a: seq<T>, b: seq<T>, c: seq<T>)
    ensures (a + b) + c == a + (b + c)
  {
  }

  /** `r` extends `s`: the store only grows and the log is only appended to. */
  ghost predicate Grows(s: State, r: State) {
    s.store <= r.store && |s.log| <= |r.log| && r.log[..|s.log|] == s.log
  }

  lemma GrowsTransitive(s: State, t: State, r: State)
    requires Grows(s, t) && Grows(t, r)
    ensures Grows(s, r)
  {
    assert r.log[..|s.log|] == r.log[..|t.log|][..|s.log|];
  }

  /** The unread flags after marking `uids` seen: those are false, and every
      other message keeps its flag (or its absence). */
  ghost predicate MarksOnly(before: map<Uid, bool>, after: map<Uid, bool>, uids: seq<Uid>) {
    && (forall u :: u in uids ==> u in after && !after[u])
    && (forall u :: u !in uids ==> (u in after <==> u in before))
    && (forall u :: u !in uids && u in before ==> after[u] == before[u])
  }

  // ----- The attachments of one message -----

  /** The paths that a run over `atts` stores, whatever the chat server
      answers: those of the attachments whose content type does not mention
      "image". */
  function StoredBy(ctx: Context, atts: seq<Attachment>): (paths: set<string>)
    ensures forall p :: p in paths <==>
      exists a :: a in atts && Eligible(a) && p == StorePath(ctx.config, ctx.sha256(a.content))
  {
    if atts == [] then {}
    else
      var rest := StoredBy(ctx, atts[1..]);
      assert forall a :: a in atts <==> a == atts[0] || a in atts[1..];
      (if Eligible(atts[0]) then {StorePath(ctx.config, ctx.sha256(atts[0].content))} else {}) + rest
  }

  lemma {:induction false} SeenUidsUnmarked(log: seq<Effect>, extra: seq<Effect>)
    requires forall i :: 0 <= i < |extra| ==> !extra[i].MarkSeen?
    ensures SeenUids(log + extra) == SeenUids(log)
    decreases |extra|
  {
    if extra != [] {
      var init, last := extra[..|extra| - 1], extra[|extra| - 1];
      assert !last.MarkSeen?;
      SeenUidsUnmarked(log, init);
      assert log + extra == (log + init) + [last];
      SeenUidsAppend(log + init, last);
    } else {
      assert log + extra == log;
    }
  }

  lemma AttachmentGrows(ctx: Context, server: ChatServer, s: State, m: Message, att: Attachment)
    ensures var r := AttachmentStep(ctx, server, s, m, att);
      && Grows(s, r) && r.unread == s.unread
      && r.store == s.store + (if Eligible(att) then {StorePath(ctx.config, ctx.sha256(att.content))} else {})
  {
  }

  lemma AttachmentMarksNothing(ctx: Context, server: ChatServer, s: State, m: Message, att: Attachment)
    ensures SeenUids(AttachmentStep(ctx, server, s, m, att).log) == SeenUids(s.log)
  {
    var r := AttachmentStep(ctx, server, s, m, att);
    var n := |s.log|;
    AttachmentGrows(ctx, server, s, m, att);
    var extra := r.log[n..];
    assert r.log == s.log + extra;
    assert forall i :: 0 <= i < |extra| ==> !extra[i].MarkSeen?;
    SeenUidsUnmarked(s.log, extra);
  }

  /** A message's attachment loop stores exactly the eligible attachments'
      paths, whichever uploads fail, and touches no unread flag. */
  lemma {:induction false} AttachmentsSummary(ctx: Context, server: ChatServer, s: State, m: Message, atts: seq<Attachment>)
    ensures var r := AttachmentsStep(ctx, server, s, m, atts);
      && Grows(s, r) && r.unread == s.unread
      && r.store == s.store + StoredBy(ctx, atts)
    decreases |atts|
  {
    if atts != [] {
      var t := AttachmentStep(ctx, server, s, m, atts[0]);
      AttachmentGrows(ctx, server, s, m, atts[0]);
      AttachmentsSummary(ctx, server, t, m, atts[1..]);
      GrowsTransitive(s, t, AttachmentsStep(ctx, server, s, m, atts));
    }
  }

  /** A message's attachment loop marks nothing seen. */
  lemma {:induction false} AttachmentsMarkNothing(ctx: Context, server: ChatServer, s: State, m: Message, atts: seq<Attachment>)
    ensures SeenUids(AttachmentsStep(ctx, server, s, m, atts).log) == SeenUids(s.log)
    decreases |atts|
  {
    if atts != [] {
      AttachmentMarksNothing(ctx, server, s, m, atts[0]);
      AttachmentsMarkNothing(ctx, server, AttachmentStep(ctx, server, s, m, atts[0]), m, atts[1..]);
    }
  }

  /** When every eligible path is already stored, the attachment loop does
      nothing at all: stored content is never written or uploaded again. */
  lemma {:induction false} AttachmentsAlreadyStored(ctx: Context, server: ChatServer, s: State, m: Message, atts: seq<Attachment>)
    requires StoredBy(ctx, atts) <= s.store
    ensures AttachmentsStep(ctx, server, s, m, atts) == s
    decreases |atts|
  {
    if atts != [] {
      assert atts[0] in atts;
      assert AttachmentStep(ctx, server, s, m, atts[0]) == s;
      assert forall a :: a in atts[1..] ==> a in atts;
      AttachmentsAlreadyStored(ctx, server, s, m, atts[1..]);
    }
  }

  /** A message is marked seen once, after all effects of its attachments. */
  lemma MessageMarkedLast(ctx: Context, server: ChatServer, s: State, uid: Uid, m: Message)
    ensures var r := MessageStep(ctx, server, s, uid, m);
      var a := AttachmentsStep(ctx, server, s, m, m.attachments);
      && r.log == a.log + [MarkSeen(uid)]
      && SeenUids(a.log) == SeenUids(s.log)
      && SeenUids(r.log) == SeenUids(s.log) + [uid]
  {
    var a := AttachmentsStep(ctx, server, s, m, m.attachments);
    AttachmentsMarkNothing(ctx, server, s, m, m.attachments);
    SeenUidsAppend(a.log, MarkSeen(uid));
  }

  /** What a message changes besides the log: the store gains its eligible
      attachments' paths and only its own unread flag is cleared. */
  lemma MessageGrows(ctx: Context, server: ChatServer, s: State, uid: Uid, m: Message)
    ensures var r := MessageStep(ctx, server, s, uid, m);
      && r.store == s.store + StoredBy(ctx, m.attachments)
      && r.unread == s.unread[uid := false]
      && Grows(s, r)
  {
    var r := MessageStep(ctx, server, s, uid, m);
    var a := AttachmentsStep(ctx, server, s, m, m.attachments);
    AttachmentsSummary(ctx, server, s, m, m.attachments);
    assert Grows(a, r);
    GrowsTransitive(s, a, r);
  }

  /** A new eligible attachment whose upload succeeds adds exactly its
      write, its upload and its post to the log. */
  lemma NewAttachmentPosted(ctx: Context, server: ChatServer, s: State, m: Message, att: Attachment)
    requires Eligible(att) && StorePath(ctx.config, ctx.sha256(att.content)) !in s.store
    requires var reply := server.uploadReply(|s.log| + 1); reply.FileInfos? && |reply.ids| > 0
    ensures var r := AttachmentStep(ctx, server, s, m, att);
      var digest := ctx.sha256(att.content);
      var path := StorePath(ctx.config, digest);
      && r.store == s.store + {path}
      && r.log == s.log + [Write(path, att.content), UploadRequest(ctx.config, digest, path),
                           PostRequest(ctx.config, PostText(m, att, digest), server.uploadReply(|s.log| + 1).ids[0])]
  {
  }

  /** A message with two new attachments whose uploads both succeed yields
      two posts, one per file, each carrying only its own file id, before
      the single mark-seen. */
  lemma OnePostPerAttachment(ctx: Context, server: ChatServer, s: State, uid: Uid, m: Message)
    requires |m.attachments| == 2
    requires var a0, a1 := m.attachments[0], m.attachments[1];
      var p0, p1 := StorePath(ctx.config, ctx.sha256(a0.content)), StorePath(ctx.config, ctx.sha256(a1.content));
      && Eligible(a0) && Eligible(a1) && p0 != p1 && p0 !in s.store && p1 !in s.store
    requires var reply := server.uploadReply(|s.log| + 1); reply.FileInfos? && |reply.ids| > 0
    requires var reply := server.uploadReply(|s.log| + 4); reply.FileInfos? && |reply.ids| > 0
    ensures var r := MessageStep(ctx, server, s, uid, m);
      var n := |s.log|;
      && |r.log| == n + 7
      && r.log[n + 2] == PostRequest(ctx.config, PostText(m, m.attachments[0], ctx.sha256(m.attachments[0].content)),
                                     server.uploadReply(n + 1).ids[0])
      && r.log[n + 5] == PostRequest(ctx.config, PostText(m, m.attachments[1], ctx.sha256(m.attachments[1].content)),
                                     server.uploadReply(n + 4).ids[0])
      && r.log[n + 6] == MarkSeen(uid)
  {
    var n := |s.log|;
    var atts := m.attachments;
    var t := AttachmentStep(ctx, server, s, m, atts[0]);
    NewAttachmentPosted(ctx, server, s, m, atts[0]);
    NewAttachmentPosted(ctx, server, t, m, atts[1]);
    var u := AttachmentStep(ctx, server, t, m, atts[1]);
    assert atts[1..][0] == atts[1] && atts[1..][1..] == [];
    assert AttachmentsStep(ctx, server, u, m, []) == u;
    assert AttachmentsStep(ctx, server, t, m, atts[1..]) == u;
    assert AttachmentsStep(ctx, server, s, m, atts) == u;
  }

  // ----- A batch of messages -----

  /** The uids of a batch, in order. */
  function Uids(batch: seq<(Uid, Message)>): (uids: seq<Uid>)
    ensures |uids| == |batch| && forall i :: 0 <= i < |batch| ==> uids[i] == batch[i].0
  {
    if batch == [] then [] else [batch[0].0] + Uids(batch[1..])
  }

  /** The paths a batch stores: those of its messages' eligible attachments. */
  function BatchStored(ctx: Context, batch: seq<(Uid, Message)>): set<string> {
    if batch == [] then {} else StoredBy(ctx, batch[0].1.attachments) + BatchStored(ctx, batch[1..])
  }

  lemma {:induction false} BatchGrows(ctx: Context, server: ChatServer, s: State, batch: seq<(Uid, Message)>)
    ensures var r := BatchStep(ctx, server, s, batch);
      Grows(s, r) && r.store == s.store + BatchStored(ctx, batch)
    decreases |batch|
  {
    if batch != [] {
      var t := MessageStep(ctx, server, s, batch[0].0, batch[0].1);
      MessageGrows(ctx, server, s, batch[0].0, batch[0].1);
      BatchGrows(ctx, server, t, batch[1..]);
      GrowsTransitive(s, t, BatchStep(ctx, server, s, batch));
    }
  }

  lemma {:induction false} BatchSeenUids(ctx: Context, server: ChatServer, s: State, batch: seq<(Uid, Message)>)
    ensures SeenUids(BatchStep(ctx, server, s, batch).log) == SeenUids(s.log) + Uids(batch)
    decreases |batch|
  {
    if batch == [] {
      assert SeenUids(s.log) + [] == SeenUids(s.log);
    } else {
      var uid := batch[0].0;
      var t := MessageStep(ctx, server, s, uid, batch[0].1);
      MessageMarkedLast(ctx, server, s, uid, batch[0].1);
      BatchSeenUids(ctx, server, t, batch[1..]);
      var rest := Uids(batch[1..]);
      assert Uids(batch) == [uid] + rest;
      Reassociate(SeenUids(s.log), [uid], rest);
    }
  }

  lemma {:induction false} BatchFlags(ctx: Context, server: ChatServer, s: State, batch: seq<(Uid, Message)>)
    ensures MarksOnly(s.unread, BatchStep(ctx, server, s, batch).unread, Uids(batch))
    decreases |batch|
  {
    if batch != [] {
      var uid := batch[0].0;
      var t := MessageStep(ctx, server, s, uid, batch[0].1);
      var r := BatchStep(ctx, server, s, batch);
      MessageGrows(ctx, server, s, uid, batch[0].1);
      BatchFlags(ctx, server, t, batch[1..]);
      assert Uids(batch) == [uid] + Uids(batch[1..]);
      forall u | u in Uids(batch) ensures u in r.unread && !r.unread[u] {
        if u !in Uids(batch[1..]) {
          assert u == uid;
        }
      }
    }
  }

  /** Processing a batch marks each of its messages seen once, in batch
      order; stores exactly the eligible attachments' paths; and changes no
      other message's unread flag. */
  lemma BatchSummary(ctx: Context, server: ChatServer, s: State, batch: seq<(Uid, Message)>)
    ensures var r := BatchStep(ctx, server, s, batch);
      && Grows(s, r)
      && r.store == s.store + BatchStored(ctx, batch)
      && SeenUids(r.log) == SeenUids(s.log) + Uids(batch)
      && MarksOnly(s.unread, r.unread, Uids(batch))
  {
    BatchGrows(ctx, server, s, batch);
    BatchSeenUids(ctx, server, s, batch);
    BatchFlags(ctx, server, s, batch);
  }

  /** The mark-seen effects for `uids`, in order. */
  function SeenEffects(uids: seq<Uid>): seq<Effect> {
    if uids == [] then [] else [MarkSeen(uids[0])] + SeenEffects(uids[1..])
  }

  /** A message whose eligible paths are all stored is only marked seen. */
  lemma MessageAlreadyStored(ctx: Context, server: ChatServer, s: State, uid: Uid, m: Message)
    requires StoredBy(ctx, m.attachments) <= s.store
    ensures MessageStep(ctx, server, s, uid, m) == SeenStep(s, uid)
  {
    AttachmentsAlreadyStored(ctx, server, s, m, m.attachments);
  }

  /** Marking each of `uids` seen, in order. */
  function SeenAll(s: State, uids: seq<Uid>): State
    decreases |uids|
  {
    if uids == [] then s else SeenAll(SeenStep(s, uids[0]), uids[1..])
  }

  /** Marking messages seen leaves the store alone and only appends
      mark-seen effects to the log. */
  lemma {:induction false} SeenAllEffects(s: State, uids: seq<Uid>)
    ensures var r := SeenAll(s, uids);
      r.store == s.store && r.log == s.log + SeenEffects(uids)
    decreases |uids|
  {
    if uids == [] {
      assert s.log + [] == s.log;
    } else {
      var t := SeenStep(s, uids[0]);
      SeenAllEffects(t, uids[1..]);
      var rest := SeenEffects(uids[1..]);
      assert (s.log + [MarkSeen(uids[0])]) + rest == s.log + ([MarkSeen(uids[0])] + rest);
    }
  }

  /** Processing a batch whose eligible paths are all stored does nothing
      but mark its messages seen, in order. */
  lemma {:induction false} ReplayOnlyMarksSeen(ctx: Context, server: ChatServer, s: State, batch: seq<(Uid, Message)>)
    requires BatchStored(ctx, batch) <= s.store
    ensures BatchStep(ctx, server, s, batch) == SeenAll(s, Uids(batch))
    decreases |batch|
  {
    if batch != [] {
      var uid, m := batch[0].0, batch[0].1;
      MessageAlreadyStored(ctx, server, s, uid, m);
      ReplayOnlyMarksSeen(ctx, server, SeenStep(s, uid), batch[1..]);
      assert Uids(batch)[1..] == Uids(batch[1..]);
    }
  }

  /** The scenario of a duplicate fetch: the second pass over a batch the
      first pass processed writes nothing. */
  lemma ReplayAfterFirstPass(ctx: Context, first: ChatServer, second: ChatServer, s: State, batch: seq<(Uid, Message)>)
    ensures var r1 := BatchStep(ctx, first, s, batch);
      var r2 := BatchStep(ctx, second, r1, batch);
      r2.store == r1.store && r2.log == r1.log + SeenEffects(Uids(batch))
  {
    var r1 := BatchStep(ctx, first, s, batch);
    BatchGrows(ctx, first, s, batch);
    ReplayOnlyMarksSeen(ctx, second, r1, batch);
    SeenAllEffects(r1, Uids(batch));
  }

  // ----- One cycle -----

  /** The uids a cycle marks seen: every completely processed message's, and
      the in-flight message's when the error handler reached it. */
  function CycleMarked(input: CycleInput): seq<Uid> {
    if !input.connected || input.fetch.FetchFailed? then []
    else
      var batch, fault := input.fetch.batch, input.fetch.fault;
      var n := Completed(batch, fault);
      Uids(batch[..n]) + (if n < |batch| && fault.markInFlight then [batch[n].0] else [])
  }

  /** The paths a cycle stores: the eligible attachments of every message
      whose attachment loop ran. */
  function CycleStored(ctx: Context, input: CycleInput): set<string> {
    if !input.connected || input.fetch.FetchFailed? then {}
    else
      var batch, fault := input.fetch.batch, input.fetch.fault;
      var n := Completed(batch, fault);
      BatchStored(ctx, batch[..n])
        + (if n < |batch| && fault.started then StoredBy(ctx, batch[n].1.attachments) else {})
  }

  /** The store and the log of a cycle: exactly the eligible paths of the
      messages whose attachment loop ran are added, and the log is only
      appended to. */
  lemma CycleGrows(ctx: Context, s: State, input: CycleInput)
    ensures var r := CycleStep(ctx, s, input).0;
      Grows(s, r) && r.store == s.store + CycleStored(ctx, input)
  {
    if input.connected && input.fetch.Fetched? {
      var batch, fault := input.fetch.batch, input.fetch.fault;
      var n := Completed(batch, fault);
      var done := BatchStep(ctx, input.server, s, batch[..n]);
      BatchGrows(ctx, input.server, s, batch[..n]);
      if n < |batch| {
        var uid, m := batch[n].0, batch[n].1;
        var started := if fault.started then AttachmentsStep(ctx, input.server, done, m, m.attachments) else done;
        AttachmentsSummary(ctx, input.server, done, m, m.attachments);
        GrowsTransitive(s, done, started);
        var r := CycleStep(ctx, s, input).0;
        if fault.markInFlight {
          assert Grows(started, r);
          GrowsTransitive(s, started, r);
        }
      } else {
        assert batch[..n] == batch;
      }
    }
  }

  /** The messages a cycle marks seen, in order. */
  lemma CycleSeen(ctx: Context, s: State, input: CycleInput)
    ensures SeenUids(CycleStep(ctx, s, input).0.log) == SeenUids(s.log) + CycleMarked(input)
  {
    if input.connected && input.fetch.Fetched? {
      var batch, fault := input.fetch.batch, input.fetch.fault;
      var n := Completed(batch, fault);
      var done := BatchStep(ctx, input.server, s, batch[..n]);
      BatchSeenUids(ctx, input.server, s, batch[..n]);
      if n < |batch| {
        var uid, m := batch[n].0, batch[n].1;
        var started := if fault.started then AttachmentsStep(ctx, input.server, done, m, m.attachments) else done;
        AttachmentsMarkNothing(ctx, input.server, done, m, m.attachments);
        assert SeenUids(started.log) == SeenUids(done.log);
        if fault.markInFlight {
          SeenUidsAppend(started.log, MarkSeen(uid));
        } else {
          assert CycleMarked(input) == Uids(batch[..n]) + [];
        }
      } else {
        assert CycleMarked(input) == Uids(batch[..n]) + [];
      }
    } else {
      assert SeenUids(s.log) + [] == SeenUids(s.log);
    }
  }

  /** The unread flags after a cycle: the marked messages are read, every
      other flag is left as it was. */
  lemma CycleFlags(ctx: Context, s: State, input: CycleInput)
    ensures MarksOnly(s.unread, CycleStep(ctx, s, input).0.unread, CycleMarked(input))
  {
    if input.connected && input.fetch.Fetched? {
      var batch, fault := input.fetch.batch, input.fetch.fault;
      var n := Completed(batch, fault);
      var done := BatchStep(ctx, input.server, s, batch[..n]);
      BatchFlags(ctx, input.server, s, batch[..n]);
      if n < |batch| {
        var uid, m := batch[n].0, batch[n].1;
        var started := if fault.started then AttachmentsStep(ctx, input.server, done, m, m.attachments) else done;
        AttachmentsSummary(ctx, input.server, done, m, m.attachments);
        assert started.unread == done.unread;
        var r := CycleStep(ctx, s, input).0;
        if fault.markInFlight {
          forall u | u in CycleMarked(input) ensures u in r.unread && !r.unread[u] {
            if u != uid {
              assert u in Uids(batch[..n]);
            }
          }
        } else {
          assert CycleMarked(input) == Uids(batch[..n]) + [];
        }
      } else {
        assert batch[..n] == batch;
        assert CycleMarked(input) == Uids(batch[..n]) + [];
      }
    }
  }

  /** What one cycle changes. A failed connection exits with status 2 and
      changes nothing; otherwise the cycle goes on. The store gains exactly
      the eligible paths of the messages whose attachment loop ran; the
      messages marked seen are the completed ones, in order, and at most the
      in-flight one besides; every other unread flag, in particular those of
      the messages after an escaping failure, is left as it was. */
  lemma CycleSummary(ctx: Context, s: State, input: CycleInput)
    ensures var (r, outcome) := CycleStep(ctx, s, input);
      && (outcome.Exit? <==> !input.connected)
      && (outcome.Exit? ==> outcome.status == 2 && r == s)
      && Grows(s, r)
      && r.store == s.store + CycleStored(ctx, input)
      && SeenUids(r.log) == SeenUids(s.log) + CycleMarked(input)
      && MarksOnly(s.unread, r.unread, CycleMarked(input))
  {
    CycleGrows(ctx, s, input);
    CycleSeen(ctx, s, input);
    CycleFlags(ctx, s, input);
  }

  // ----- Any number of cycles -----

  /** A run of cycles ends early only through a failed connection, and then
      with status 2. */
  lemma {:induction false} CyclesExitStatus(ctx: Context, s: State, inputs: seq<CycleInput>)
    ensures var exit := Cycles(ctx, s, inputs).1;
      && (exit.Some? <==> exists k :: 0 <= k < |inputs| && !inputs[k].connected)
      && (exit.Some? ==> exit.value == 2)
    decreases |inputs|
  {
    if inputs != [] {
      var next := CycleStep(ctx, s, inputs[0]).0;
      CyclesExitStatus(ctx, next, inputs[1..]);
      if inputs[0].connected {
        assert forall k :: 1 <= k < |inputs| ==> inputs[k] == inputs[1..][k - 1];
        assert forall k :: 0 <= k < |inputs| - 1 ==> inputs[1..][k] == inputs[k + 1];
      }
    }
  }

  /** Every written file is in the store under its content's digest. */
  ghost predicate WritesStored(ctx: Context, s: State) {
    forall i :: 0 <= i < |s.log| && s.log[i].Write? ==>
      s.log[i].path in s.store && s.log[i].path == StorePath(ctx.config, ctx.sha256(s.log[i].content))
  }

  /** Every upload comes right after the write of the same path and names
      that content's digest. */
  ghost predicate UploadsFollowWrites(ctx: Context, s: State) {
    forall i :: 0 <= i < |s.log| && s.log[i].Upload? ==>
      0 < i && s.log[i - 1].Write? && s.log[i - 1].path == s.log[i].path
      && s.log[i].clientId == ctx.sha256(s.log[i - 1].content)
  }

  /** Every post comes right after an upload. */
  ghost predicate PostsFollowUploads(s: State) {
    forall i :: 0 <= i < |s.log| && s.log[i].Post? ==> 0 < i && s.log[i - 1].Upload?
  }

  /** No path is written twice. */
  ghost predicate WritesDistinct(s: State) {
    forall i, j :: 0 <= i < j < |s.log| && s.log[i].Write? && s.log[j].Write? ==>
      s.log[i].path != s.log[j].path
  }

  /** The invariant every run keeps. */
  ghost predicate Consistent(ctx: Context, s: State) {
    WritesStored(ctx, s) && UploadsFollowWrites(ctx, s) && PostsFollowUploads(s) && WritesDistinct(s)
  }

  /** Appending effects that are neither writes, uploads nor posts, while the
      store only grows, keeps the invariant. */
  lemma ConsistentAfterMarks(ctx: Context, s: State, r: State)
    requires Consistent(ctx, s) && Grows(s, r)
    requires forall i :: |s.log| <= i < |r.log| ==> r.log[i].MarkSeen?
    ensures Consistent(ctx, r)
  {
    forall i | 0 <= i < |s.log| ensures r.log[i] == s.log[i] {
      assert r.log[..|s.log|][i] == s.log[i];
    }
  }

  /** The effects of storing a new file, uploading it and perhaps posting
      about it. */
  ghost predicate NewFile(ctx: Context, s: State, r: State, content: Bytes, upload: Effect, extra: seq<Effect>) {
    && StorePath(ctx.config, ctx.sha256(content)) !in s.store
    && r.store == s.store + {StorePath(ctx.config, ctx.sha256(content))}
    && upload.Upload? && upload.path == StorePath(ctx.config, ctx.sha256(content))
    && upload.clientId == ctx.sha256(content)
    && r.log == s.log + [Write(upload.path, content), upload] + extra
    && (extra == [] || (|extra| == 1 && extra[0].Post?))
  }

  lemma NewFileKeepsOld(ctx: Context, s: State, r: State, content: Bytes, upload: Effect, extra: seq<Effect>)
    requires NewFile(ctx, s, r, content, upload, extra)
    ensures forall i :: 0 <= i < |s.log| ==> r.log[i] == s.log[i]
    ensures r.log[|s.log|] == Write(upload.path, content) && r.log[|s.log| + 1] == upload
    ensures forall i :: |s.log| + 2 <= i < |r.log| ==> r.log[i].Post?
  {
  }

  lemma NewFileWritesStored(ctx: Context, s: State, r: State, content: Bytes, upload: Effect, extra: seq<Effect>)
    requires WritesStored(ctx, s) && NewFile(ctx, s, r, content, upload, extra)
    ensures WritesStored(ctx, r)
  {
    NewFileKeepsOld(ctx, s, r, content, upload, extra);
  }

  lemma NewFileUploads(ctx: Context, s: State, r: State, content: Bytes, upload: Effect, extra: seq<Effect>)
    requires UploadsFollowWrites(ctx, s) && PostsFollowUploads(s) && NewFile(ctx, s, r, content, upload, extra)
    ensures UploadsFollowWrites(ctx, r) && PostsFollowUploads(r)
  {
    NewFileKeepsOld(ctx, s, r, content, upload, extra);
  }

  lemma NewFileDistinct(ctx: Context, s: State, r: State, content: Bytes, upload: Effect, extra: seq<Effect>)
    requires WritesStored(ctx, s) && WritesDistinct(s) && NewFile(ctx, s, r, content, upload, extra)
    ensures WritesDistinct(r)
  {
    var n := |s.log|;
    NewFileKeepsOld(ctx, s, r, content, upload, extra);
    forall i, j | 0 <= i < j < |r.log| && r.log[i].Write? && r.log[j].Write?
      ensures r.log[i].path != r.log[j].path
    {
      if j >= n {
        assert j == n;
        assert r.log[i].path in s.store;
      }
    }
  }

  lemma AttachmentConsistent(ctx: Context, server: ChatServer, s: State, m: Message, att: Attachment)
    requires Consistent(ctx, s)
    ensures Consistent(ctx, AttachmentStep(ctx, server, s, m, att))
  {
    var r := AttachmentStep(ctx, server, s, m, att);
    var digest := ctx.sha256(att.content);
    var path := StorePath(ctx.config, digest);
    if Eligible(att) && path !in s.store {
      var upload := UploadRequest(ctx.config, digest, path);
      var base := s.log + [Write(path, att.content), upload];
      var reply := server.uploadReply(|s.log| + 1);
      if reply.FileInfos? && |reply.ids| > 0 {
        var extra := [PostRequest(ctx.config, PostText(m, att, digest), reply.ids[0])];
        assert NewFile(ctx, s, r, att.content, upload, extra);
        NewFileWritesStored(ctx, s, r, att.content, upload, extra);
        NewFileUploads(ctx, s, r, att.content, upload, extra);
        NewFileDistinct(ctx, s, r, att.content, upload, extra);
      } else {
        assert r.log == base + [];
        assert NewFile(ctx, s, r, att.content, upload, []);
        NewFileWritesStored(ctx, s, r, att.content, upload, []);
        NewFileUploads(ctx, s, r, att.content, upload, []);
        NewFileDistinct(ctx, s, r, att.content, upload, []);
      }
    }
  }

  lemma {:induction false} AttachmentsConsistent(ctx: Context, server: ChatServer, s: State, m: Message, atts: seq<Attachment>)
    requires Consistent(ctx, s)
    ensures Consistent(ctx, AttachmentsStep(ctx, server, s, m, atts))
    decreases |atts|
  {
    if atts != [] {
      AttachmentConsistent(ctx, server, s, m, atts[0]);
      AttachmentsConsistent(ctx, server, AttachmentStep(ctx, server, s, m, atts[0]), m, atts[1..]);
    }
  }

  lemma SeenConsistent(ctx: Context, s: State, uid: Uid)
    requires Consistent(ctx, s)
    ensures Consistent(ctx, SeenStep(s, uid))
  {
    ConsistentAfterMarks(ctx, s, SeenStep(s, uid));
  }

  lemma {:induction false} BatchConsistent(ctx: Context, server: ChatServer, s: State, batch: seq<(Uid, Message)>)
    requires Consistent(ctx, s)
    ensures Consistent(ctx, BatchStep(ctx, server, s, batch))
    decreases |batch|
  {
    if batch != [] {
      var m := batch[0].1;
      AttachmentsConsistent(ctx, server, s, m, m.attachments);
      SeenConsistent(ctx, AttachmentsStep(ctx, server, s, m, m.attachments), batch[0].0);
      BatchConsistent(ctx, server, MessageStep(ctx, server, s, batch[0].0, m), batch[1..]);
    }
  }

  lemma CycleConsistent(ctx: Context, s: State, input: CycleInput)
    requires Consistent(ctx, s)
    ensures Consistent(ctx, CycleStep(ctx, s, input).0)
  {
    if input.connected && input.fetch.Fetched? {
      var batch, fault := input.fetch.batch, input.fetch.fault;
      var n := Completed(batch, fault);
      var done := BatchStep(ctx, input.server, s, batch[..n]);
      BatchConsistent(ctx, input.server, s, batch[..n]);
      if n < |batch| {
        var m := batch[n].1;
        AttachmentsConsistent(ctx, input.server, done, m, m.attachments);
        var started := if fault.started then AttachmentsStep(ctx, input.server, done, m, m.attachments) else done;
        SeenConsistent(ctx, started, batch[n].0);
      }
    }
  }

  /** Any run of cycles keeps the invariant, only grows the store and only
      appends to the log. */
  lemma {:induction false} CyclesConsistent(ctx: Context, s: State, inputs: seq<CycleInput>)
    requires Consistent(ctx, s)
    ensures Consistent(ctx, Cycles(ctx, s, inputs).0) && Grows(s, Cycles(ctx, s, inputs).0)
    decreases |inputs|
  {
    if inputs != [] {
      var next := CycleStep(ctx, s, inputs[0]).0;
      CycleConsistent(ctx, s, inputs[0]);
      CycleGrows(ctx, s, inputs[0]);
      if CycleStep(ctx, s, inputs[0]).1.Continue? {
        CyclesConsistent(ctx, next, inputs[1..]);
        GrowsTransitive(s, next, Cycles(ctx, s, inputs).0);
      }
    }
  }

  /** Under the invariant each digest is written at most once, uploaded at
      most once and announced by at most one post. */
  lemma AtMostOncePerDigest(ctx: Context, s: State)
    requires Consistent(ctx, s)
    ensures forall i, j :: 0 <= i < j < |s.log| && s.log[i].Write? && s.log[j].Write? ==>
      ctx.sha256(s.log[i].content) != ctx.sha256(s.log[j].content)
    ensures forall i, j :: 0 <= i < j < |s.log| && s.log[i].Upload? && s.log[j].Upload? ==>
      s.log[i].clientId != s.log[j].clientId
    ensures forall i, j :: 0 <= i < j < |s.log| && s.log[i].Post? && s.log[j].Post? ==>
      0 < i && s.log[i - 1].Upload? && s.log[j - 1].Upload? && s.log[i - 1].clientId != s.log[j - 1].clientId
  {
    forall i, j | 0 <= i < j < |s.log| && s.log[i].Upload? && s.log[j].Upload?
      ensures s.log[i].clientId != s.log[j].clientId
    {
      assert s.log[i - 1].path != s.log[j - 1].path;
    }
  }

  /** From a log with no entries, and whatever files already exist, any run
      of cycles writes, uploads and announces each digest at most once, and
      every file it wrote holds content whose digest ends its path. */
  lemma OncePerDigestAcrossCycles(ctx: Context, store: set<string>, unread: map<Uid, bool>, inputs: seq<CycleInput>)
    ensures var r := Cycles(ctx, State(store, unread, []), inputs).0;
      && store <= r.store
      && (forall i :: 0 <= i < |r.log| && r.log[i].Write? ==>
            r.log[i].path in r.store && r.log[i].path == StorePath(ctx.config, ctx.sha256(r.log[i].content)))
      && (forall i, j :: 0 <= i < j < |r.log| && r.log[i].Write? && r.log[j].Write? ==>
            ctx.sha256(r.log[i].content) != ctx.sha256(r.log[j].content))
      && (forall i, j :: 0 <= i < j < |r.log| && r.log[i].Upload? && r.log[j].Upload? ==>
            r.log[i].clientId != r.log[j].clientId)
  {
    CyclesConsistent(ctx, State(store, unread, []), inputs);
    AtMostOncePerDigest(ctx, Cycles(ctx, State(store, unread, []), inputs).0);
  }
}
