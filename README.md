# mail2mattermost worker, modelled in Dafny

This project models the polling worker of mail2mattermost, the
`EmailListener.run` loop in `mail2mattermost.py`. On each cycle the worker
connects to an IMAP mailbox and fetches the unread messages. For every
attachment whose content type does not mention `image`, it hashes the
content with SHA-256 and stores it under `workingdir + data_folder + digest`,
unless a file already exists at that path. It then uploads the file to a
Mattermost server and posts a short text about it, with the first returned
file id, in the configured channel. After a message's attachments it marks
the message seen. Then it sleeps, and the loop starts over.

The project has six modules:

- `Mail` (`mail.dfy`) holds the data model. It covers messages,
  attachments, the configuration, the chat server's answers to uploads, the
  effects the worker has on the outside world, and the failures that can
  end a batch early.
- `Text` (`text.dfy`) holds the two string operations the worker relies on.
  `Contains` is Python's substring test `"image" in s`. `Basename` is
  `os.path.basename`.
- `Compose` (`compose.dfy`) holds the post text. `ComposeMessage` builds it
  by successive appends, as the worker does. `PostText` specifies it. A
  parser, `ParsePost`, reads it back, and lemmas prove that the two agree.
- `Pipeline` (`pipeline.dfy`) states one cycle as functions from the state
  before to the state after. The state is the set of existing files, the
  unread flags and the log of effects.
- `Listener` (`listener.dfy`) holds the class `EmailListener`. Its fields
  are the store, the unread flags and the effect log. Its methods run the
  loops in place. Each method is proved to end in exactly the state that
  the matching `Pipeline` function gives.
- `Properties` (`properties.dfy`) proves what a cycle guarantees. It
  covers where content is stored, which messages are marked seen, and what
  happens when an attachment is seen again. It also proves an invariant
  kept across any number of cycles: each digest is written, uploaded and
  announced at most once.

The worker depends on things outside it: the IMAP server, the filesystem,
the chat server and SHA-256. The model takes them as inputs.

- SHA-256 is a parameter `sha256: Bytes -> HexDigest`. Any function that
  yields 64 lower-case hex digits can stand in for it.
- The chat server is `ChatServer.uploadReply`. It gives the answer to the
  upload recorded at a given position of the log.
- Each cycle gets a `CycleInput`. It says whether the connection succeeded,
  which batch was fetched, and whether a failure escaped the message loop,
  at which message, and how far that message had got.

Where the specification of the system and the code disagree, the model
follows the code:

- The code sends one post per newly stored attachment. The specification
  describes one post per mail, listing all its files.
- The code has no cap on the number of attachments per message. The
  specification describes a cap of 5.
- The code always writes the same fixed fields: Subject, Sender, Date,
  Attachment, sha256 and `TLP: RED`. The specification describes fields
  that the configuration can switch on or off.
- In the code, only failures inside one attachment are contained. A failure
  while fetching a message or marking it seen leaves the per-message loop.
  The rest of the batch then waits for the next cycle. The specification
  describes every message-level failure as contained.

## Model

| member | source | states |
|---|---|---|
| Text.Contains | mail2mattermost.py:58 | The `"image" in str(content_type)` test holds exactly when "image" occurs at some position of the content type, not only at its start. |
| Text.BasenameAppend | mail2mattermost.py:73 | Appending a slash-free name to a path extends its base name by that name. |
| Compose.ComposeMessage | mail2mattermost.py:79-108 | Successive appends give exactly `PostText`: the `---` header, one line per available field in the order subject, sender, date, file name and digest, then `TLP: RED`. |
| Compose.PostTextFrame | mail2mattermost.py:79-106 | The post starts with `---` and CR LF and ends with ``TLP: `RED` ``, so it never ends with a line break. |
| Compose.PostFieldsLookup | mail2mattermost.py:80-103 | Each optional line carries exactly the message's value and is present exactly when that value is available. The sha256 line is always present and always last. |
| Compose.PostRoundTrip | mail2mattermost.py:79-108 | When no value contains a backquote, parsing the composed post gives back exactly its fields. |
| Properties.StorePathLayout | mail2mattermost.py:60 | The store path is the working directory, then the data folder, then the 64 hex digits of the digest, with no separator added. |
| Properties.StorePathInjective | mail2mattermost.py:60 | Different digests give different store paths. |
| Properties.UploadFileName | mail2mattermost.py:73 | The uploaded file's name is the last component of `workingdir + data_folder` followed by the digest. |
| Properties.AttachmentDecision | mail2mattermost.py:57-117 | An image attachment, or one whose path already exists, changes nothing. Otherwise the path is stored, and the log gains the write, then the upload with the digest as client id. A post follows exactly when the upload answered with at least one file id, and it carries only the first id, in the configured channel. |
| Properties.NewAttachmentPosted | mail2mattermost.py:63-114 | A new eligible attachment whose upload succeeds adds exactly a write, an upload and a post to the log. |
| Properties.AttachmentsSummary | mail2mattermost.py:56-117 | A message's attachment loop stores exactly the paths of its eligible attachments, whatever the uploads answer, and leaves every unread flag alone. |
| Properties.AttachmentsMarkNothing | mail2mattermost.py:56-117 | A message's attachment loop marks no message seen. |
| Properties.AttachmentsAlreadyStored | mail2mattermost.py:63 | When every eligible path already exists, the attachment loop does nothing at all. |
| Properties.MessageMarkedLast | mail2mattermost.py:56-119 | A message is marked seen once, after every effect of its attachments. |
| Properties.MessageGrows | mail2mattermost.py:56-119 | Processing a message adds its eligible paths to the store and clears only its own unread flag. |
| Properties.OnePostPerAttachment | mail2mattermost.py:56-119 | A message with two new attachments whose uploads succeed gives two posts, one per file, each with its own file id, and then one mark-seen. |
| Properties.BatchGrows | mail2mattermost.py:55-119 | A batch stores exactly the eligible paths of its messages and only appends to the log. |
| Properties.BatchSeenUids | mail2mattermost.py:55-119 | A batch marks each of its messages seen once, in batch order. |
| Properties.BatchFlags | mail2mattermost.py:55-119 | After a batch, its messages are read and every other unread flag is unchanged. |
| Properties.BatchSummary | mail2mattermost.py:55-119 | Combines the three batch lemmas above. |
| Properties.MessageAlreadyStored | mail2mattermost.py:56-119 | A message whose eligible paths all exist is only marked seen. |
| Properties.SeenAllEffects | mail2mattermost.py:119 | Marking messages seen leaves the store alone and only appends mark-seen effects. |
| Properties.ReplayOnlyMarksSeen | mail2mattermost.py:55-119 | A batch whose eligible paths all exist does nothing but mark its messages seen, in order. |
| Properties.ReplayAfterFirstPass | mail2mattermost.py:55-119 | Running the same batch a second time writes, uploads and posts nothing. Its only effects are the mark-seen calls. |
| Properties.CycleGrows | mail2mattermost.py:42-128 | A cycle stores exactly the eligible paths of the messages whose attachment loop ran, and only appends to the log. |
| Properties.CycleSeen | mail2mattermost.py:42-128 | A cycle marks the completed messages seen, in order, plus the in-flight message when the error handler reached it. |
| Properties.CycleFlags | mail2mattermost.py:119-128 | After a cycle, the marked messages are read. Every other unread flag is unchanged, including those of the messages after an escaping failure. |
| Properties.CycleSummary | mail2mattermost.py:42-128 | A cycle exits, with status 2 and no change, exactly when the connection fails. It combines the three cycle lemmas above. |
| Properties.CyclesExitStatus | mail2mattermost.py:41-50 | A run of cycles stops early exactly when some connection fails, and then with status 2. |
| Properties.AttachmentConsistent | mail2mattermost.py:57-117 | One attachment keeps the invariant. Every written file is stored under its content's digest, each upload directly follows the write of its path, each post directly follows an upload, and no path is written twice. |
| Properties.AttachmentsConsistent | mail2mattermost.py:56-117 | A message's attachment loop keeps the invariant. |
| Properties.SeenConsistent | mail2mattermost.py:119 | Marking a message seen keeps the invariant. |
| Properties.BatchConsistent | mail2mattermost.py:55-119 | A batch keeps the invariant. |
| Properties.CycleConsistent | mail2mattermost.py:42-128 | A cycle keeps the invariant, whatever failure ends it. |
| Properties.CyclesConsistent | mail2mattermost.py:41-130 | Any run of cycles keeps the invariant, only grows the store and only appends to the log. |
| Properties.AtMostOncePerDigest | mail2mattermost.py:59-76 | Under the invariant, no digest is written twice, no client id is uploaded twice, and any two posts follow uploads of different digests. |
| Properties.OncePerDigestAcrossCycles | mail2mattermost.py:41-130 | Starting from an empty log, any run of cycles writes and uploads each digest at most once, and every written file is stored under its content's digest. |
| Listener.EmailListener.HandleAttachment | mail2mattermost.py:57-117 | The attachment step in place: the new store, flags and log are exactly those of `AttachmentStep`. |
| Listener.EmailListener.HandleAttachments | mail2mattermost.py:56-117 | The loop over a message's attachments ends in exactly the state `AttachmentsStep` gives. |
| Listener.EmailListener.MarkAsSeen | mail2mattermost.py:119 | Clears the message's unread flag and logs one mark-seen. |
| Listener.EmailListener.RunCycle | mail2mattermost.py:42-128 | Ends in exactly the state and outcome `CycleStep` gives. It exits exactly when the connection fails, then with status 2 and no change. |
| Listener.EmailListener.Run | mail2mattermost.py:41-130 | Consecutive cycles end in the state and exit status `Cycles` gives. |

## Left out

- The IMAP session, the HTTP requests and the filesystem are modelled by
  their effects and by the answers given as inputs. Connection options,
  credentials, TLS and the `has:attachment` search filter are not modelled.
- SHA-256 itself is not modelled. It is a parameter constrained only to
  give 64 lower-case hex digits.
- Writing a file and opening it for the upload are assumed to succeed. A
  failing write inside the per-attachment `try` is not modelled. Neither is
  a file that exists but is not a regular file.
- The answer to the post request is never read by the code. The model logs
  the post and ignores its outcome.
- A failure of the post request, or of composing it, is swallowed by the
  per-attachment handler. Its only visible trace is the post entry in the
  log, which the model records either way.
- The content type is taken as always present. A missing `content-type`
  key would raise inside the per-attachment `try` and skip the attachment,
  just as an image does.
- The header values are modelled as optional strings. Python's `str()` of
  the sender list is an opaque string here, and a value is `None` exactly
  when reading it raises.
- The error handler's traceback introspection is modelled as the
  `markInFlight` flag of the fault. A failure inside the handler itself,
  which would end the worker with an uncaught exception, is not modelled.
- The sleep between cycles and the endless loop are modelled as a finite
  sequence of cycle inputs. Clock time is not modelled.
- The daemon, the process-per-account launcher, the command line and the
  configuration file parsing are outside this model.
