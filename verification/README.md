# Verified models of Telegram Desktop's state machines, codecs and loops

This project models the parts of Telegram Desktop that carry state across asynchronous answers, or that transform
bytes and text, and proves what they promise. Each group has a `…Spec` module with the states and the functions of one
step, a `…Theorems` module with the results over all inputs or all runs, and a module with the code: classes and
methods that work in place as the source does, each proved to compute the specification's function of its old state.
The `…Laws` modules say what that function does in other words: each of its steps is described by its inputs, the
events before it, or numbers written out, without the functions that the specification is made of, and mostly as an
"if and only if".

| group | modules | what is proved |
|---|---|---|
| Update packer, SHA-1 | `Sha1Spec`, `Sha1Rounds`, `Sha1Padding`, `Sha1Loop`, `Sha1Constants`, `Sha1` | refines FIPS 180-4 below 2^29 bytes, the padding exactly there, and when the block loop ends |
| Update packer, envelope | `EnvelopeFormat`, `EnvelopeSpec`, `EnvelopeTheorems`, `EnvelopeCode`, `EnvelopeReader`, `EnvelopeVerify`, `EnvelopeSigning`, `EnvelopeLaws`, `EnvelopeSigningLaws` | unique decoding both ways, one signing pass equals two, exactly what is packed and what clients take |
| List hash | `XorAlgebra`, `ListHash`, `StickerHash`, `StickerHashLaws` | bijective in state and value, which differences are seen |
| Mesh tools | `MeshText`, `MeshFormat`, `MeshTheorems`, `MeshLaws`, `MeshLayoutLaws`, `MeshTools` | print and bake is the identity exactly on whole lines, what each line adds, where each number stands |
| Message data | `MessageDataSpec`, `MessageDataTheorems`, `MessageDataLaws`, `MessageDataCode` | callbacks are conserved over all runs, and called in their order |
| Web pages | `WebPagesSpec`, `WebPagesTheorems`, `WebPagesLaws`, `WebPagesCode` | temporary ids become the one right request, exactly the pages that are due are asked for, waiting pages have a timer |
| Dialogs loading | `DialogsSpec`, `DialogsTheorems`, `DialogsLaws`, `DialogsCode` | one request at a time, done once, no missing load dereferenced, exactly when blocked by date is right |
| Cloud drafts | `DraftsSpec`, `DraftsTheorems`, `DraftsAnnounced`, `DraftsLaws`, `DraftsCode` | exactly when all tracked saves are in progress, exactly when all saves in flight are tracked, what the end of quit prevention means |
| Forwarding | `ForwardSpec`, `ForwardTheorems`, `ForwardLaws`, `ForwardCode`, `ForwardCallback` | batches are faithful, stars are shared, callback called once |
| Sticker sets | `StickerSaveSpec`, `StickerSaveTheorems`, `StickerSaveLaws`, `StickerSaveCode`, `StickerSyncSpec`, `StickerSyncTheorems`, `StickerSyncLaws`, `StickerSyncCode` | order, flags and survivors agree, the fate of each set and each recent sticker, the order waits for the requests of its save |
| Albums | `AlbumSpec`, `AlbumTheorems`, `AlbumHistory`, `AlbumUploads`, `AlbumCaptions`, `AlbumTexts`, `AlbumLaws`, `AlbumCode` | sent once, exactly when complete, as chosen, within the approved stars, and exactly when every text goes out |
| Invite links | `InviteLinksSpec`, `InviteLinksTheorems`, `InviteLinksLaws`, `InviteLinksCode` | a live permanent link is only in front, step by step and exactly when; no other link is lost |
| Updater | `UpdaterSpec`, `UpdaterTheorems`, `UpdaterLaws`, `UpdaterCode` | the walk ends, lists each wanted file once with its target, and fails exactly when it must |
| Frame queue | `FrameQueueSpec`, `FrameQueueTheorems`, `FrameQueueLaws`, `FrameQueueCode` | events reach only the frame they were posted for, and each has one fate |
| Text splice | `Splice` | tags keep their characters |

`Words`, `BigEndian`, `Parsing`, `FlatMap` and `Wrappers` are shared: 32-bit words, digits of numbers, readers with a
moving offset, maps walked in the order of their ids, and options.

A run is a sequence of events, each of which must be possible in the state it meets. The surroundings are assumed to
do what the network layer does: a request gets a fresh positive id; its answer comes in a later step than the send; it
is answered once at most; a cancelled request is never answered. A callback that calls back into the program does so in
a later step. What the surroundings know (requests in flight, what was sent, which callbacks were called) is part of the
state of the model, so that the results can speak of it. The clock, random numbers, server contents and user settings
are parameters of the events.

Seven places where the code does less than its documentation or its types suggest:

- The mesh tool's comment promises a byte-identical round trip. It holds exactly for files whose counts fill whole
  lines (`MeshTheorems.PrintThenBake`); a file with one position float is accepted and comes back empty
  (`MeshTheorems.LoneFloatIsLost`). Every file that the baker writes does come back (`MeshTheorems.BakeThenPrintThenBake`).
- SHA-1 pads with a 32-bit length. The padding is the standard's exactly below 2^29 bytes
  (`Sha1Padding.ShortPadIsPad`), and there the digest is the standard's too; above, the digest is that of another padded
  message (`Sha1.HashSha1`). The block loop ends exactly for lengths below 2^32 - 64 (`Sha1Loop.EndsIffShort`): from
  there on its end wraps to zero, its position stays, and its condition holds for ever.
- The table of draft saves may keep the entry of a destroyed thread whose save a newer one cancels
  (`DraftsTheorems.DeadEntryTracksCancelled`). Of all steps only such a save does that
  (`DraftsTheorems.StepKeepsAllTracked`), so a run is free of it exactly if it has no such save
  (`DraftsTheorems.AlwaysTrackedIffNoOrphans`). It never happens to a thread that exists (`DraftsTheorems.SharedIsDead`),
  and the next pass removes the entry (`DraftsTheorems.PassTracksAll`).
- The end of quit prevention may be announced while a save is in flight (`DraftsAnnounced.AnnouncedTooEarly`): a save
  that is repeated after its file reference was refreshed takes over the entry of a newer one. A save in flight is left
  untracked by such a repetition, by one whose entry is gone, or by a save sent over one that the cloud draft does not
  know of, and by nothing else (`DraftsAnnounced.StepKeepsFlight`); without these the announcement is right
  (`DraftsAnnounced.AnnouncedIsIdle`).
- A paid album carries one text. The texts of its other messages go out nowhere (`AlbumTexts.PaidTextIsLost`), while
  on the three other paths every text goes out (`AlbumTexts.AllTextsGoOutIff`).
- In support mode, a request of the main dialogs list that fails after the time slice was shortened leaves the next page
  held back by the date, but what is published as blocked is not looked at again (`DialogsTheorems.FailureGoesUnseen`).
  Nothing but such a failure makes the two disagree (`DialogsTheorems.AlwaysExactIffSeen`), and it takes a time slice
  chosen while a page is on its way (`DialogsTheorems.ExactUnlessShortened`).
- An edit or an update that turns a link other than the first into a live permanent one breaks the rule of the invite
  links, and so does a first slice with two of them (`InviteLinksTheorems.RuleBreaks`); nothing else does
  (`InviteLinksTheorems.StepIffKeepsRule`).

## Model

| member | source | states |
|---|---|---|
| Sha1.HashSha1 | Telegram/SourceFiles/_other/packer.cpp:124-160 | For every length that the block loop ends for, the twenty bytes written are the digest of the message, padded with the low 32 bits of its bit length; below 2^29 bytes they are the SHA-1 digest of FIPS 180-4. Nothing after them is written. |
| Sha1Loop.EndsIffShort | Telegram/SourceFiles/_other/packer.cpp:127-137 | The block loop ends if and only if the length is below 2^32 - 64: from there on its 32-bit end wraps to zero before its position gets any further, and its condition holds for ever. |
| Sha1Loop.EndsAfterFullBlocks | Telegram/SourceFiles/_other/packer.cpp:127-137 | If it ends, it ends after as many turns as there are full blocks, and not before; the position is behind the last of them. |
| Sha1Padding.ShortPadIsPad | Telegram/SourceFiles/_other/packer.cpp:139-151 | Of all lengths that 32 bits can hold, the padding made by the code is that of FIPS 180-4 section 5.1.1 exactly below 2^29 bytes. |
| Sha1Padding.ShortPadIsPadded | Telegram/SourceFiles/_other/packer.cpp:139-151 | The padded message is the full blocks, the tail words with the marking bit, and, if the tail has 56 bytes or more, one more block of zeros; only its last word holds the length. |
| Sha1Rounds.PartHash | Telegram/SourceFiles/_other/packer.cpp:88-120 | One block, with the schedule extended in place while the rounds run, is the compression of FIPS 180-4 section 6.1.2 on the words that were in the buffer. |
| Sha1Rounds.AllRounds | Telegram/SourceFiles/_other/packer.cpp:106-110 | The five round loops are eighty standard rounds over the standard schedule. |
| Sha1Rounds.MixingMatches | Telegram/SourceFiles/_other/packer.cpp:106-109 | Choosing and the majority, which the code joins with "or", are the standard Ch and Maj, which join with "exclusive or". |
| Sha1Constants.ConstantsAreRoots | Telegram/SourceFiles/_other/packer.cpp:106-110 | The four round constants are the whole parts of 2^30 times the roots of 2, 3, 5 and 10. |
| Sha1Constants.InitialCounts | Telegram/SourceFiles/_other/packer.cpp:128 | The bytes of the initial state, the lowest of each word first, count 01 23 to ef, fe to 10, and f0 to c3. |
| Sha1.HashFullBlocks | Telegram/SourceFiles/_other/packer.cpp:129-137 | The loop moves its 32-bit position as counted for its turns, ends behind the full blocks, and leaves the fold of the compression over all of them. |
| Sha1.LoadTail | Telegram/SourceFiles/_other/packer.cpp:139-145 | The tail words hold the leftover bytes, then the bit 0x80, then zeros. |
| Sha1.StoreDigest | Telegram/SourceFiles/_other/packer.cpp:153-157 | The state is written with the most significant byte of each word first. |
| EnvelopeCode.BuildV2Envelope | Telegram/SourceFiles/_other/packer.cpp:280-315 | The bytes are the fields one after another, each blob behind its size cast to 32 bits, each number with the least significant byte first. |
| EnvelopeCode.ByteArray.AppendLeU32 | Telegram/SourceFiles/_other/packer.cpp:166-174 | Appends the four base-256 digits of the number, the lowest first. |
| EnvelopeCode.ByteArray.AppendLeU64 | Telegram/SourceFiles/_other/packer.cpp:176-179 | Appends the eight base-256 digits of the number, the lowest first, out of its two halves. |
| EnvelopeReader.ParseEnvelope | Telegram/SourceFiles/core/update_verify.cpp:609-739 | The reader with its moving offset accepts the same bytes, and finds the same fields and signed region, as parsing by consuming a prefix. |
| EnvelopeTheorems.BuildThenParse | Telegram/SourceFiles/_other/packer.cpp:280-315 | Whatever the reader's limits, an envelope within them is read back field by field, signatures included. |
| EnvelopeTheorems.ParseThenBuild | Telegram/SourceFiles/core/update_verify.cpp:609-739 | Bytes that are accepted are the bytes that building the parsed envelope gives; the signed region is their part up to the manifest. |
| EnvelopeTheorems.RecoveredIffFits | Telegram/SourceFiles/core/update_verify.cpp:609-739 | An envelope is recovered from its bytes if and only if it is within the limits, so an oversized or empty field never passes as another one. |
| EnvelopeTheorems.ClientsParseIffFits | Telegram/SourceFiles/core/update_verify.cpp:609-739 | For every envelope, whatever its sizes: a client parses the bytes that the writer gives if and only if the envelope is within the limits, and then finds its own fields; sizes that are cast to 32 bits never make an oversized one pass. |
| EnvelopeTheorems.BuildIsInjective | Telegram/SourceFiles/_other/packer.cpp:280-315 | Envelopes whose sizes fit in 32 bits have equal bytes only if they are equal. |
| EnvelopeTheorems.SigningInputIsStable | Telegram/SourceFiles/core/update_verify.cpp:676 | The signed region of an envelope does not depend on the signatures embedded in it. |
| EnvelopeSigningLaws.HeadIs | Telegram/SourceFiles/_other/packer.cpp:280-295 | The first 27 bytes: the letters TDUP, the format 2 in four bytes, the channel, system and architecture, the version in eight bytes, and the time in eight as its two's complement. |
| EnvelopeSigningLaws.LayoutIs | Telegram/SourceFiles/_other/packer.cpp:280-315 | Where each field of an envelope within the bounds stands: the manifest behind its size at byte 27, up to where the signed region ends, its signature, the number of signatures, these, and the payload behind its size at the end. |
| EnvelopeSigningLaws.WithinIff | Telegram/SourceFiles/core/update_verify.cpp:609-739 | The bounds of a client as numbers: the highest channel, system and architecture, and the least and greatest size of each field. |
| EnvelopeSigning.WriteV2Update | Telegram/SourceFiles/_other/packer.cpp:390-462 | The one-pass path, for envelopes of whatever sizes: the unsigned bytes are parsed back, their signing input is signed, and the result is the bytes of the envelope with that signature, if a first client takes them; a failure otherwise, and for every envelope that is not within the limits. |
| EnvelopeSigning.EmbedV2Signatures | Telegram/SourceFiles/_other/packer.cpp:464-549 | The two-pass path: only an unsigned file of the right channel is taken, an unreadable signature file fails it, and the result has the listed signatures, the local one last, if a first client takes it. |
| EnvelopeSigning.VerifyPackedV2 | Telegram/SourceFiles/_other/packer.cpp:354-376 | What was packed is kept if and only if a client takes it that runs version zero for the same channel and target and holds the manifest of the key files. |
| EnvelopeSigning.TwoPassIsOnePass | Telegram/SourceFiles/_other/packer.cpp:390-539 | For every unsigned envelope, also one that is not within the limits, and every key, embedding the local signature gives what the one-pass path gives: the same bytes or a failure. |
| EnvelopeSigning.SignedInputIsVerified | Telegram/SourceFiles/core/update_verify.cpp:741-747 | A client that reads a signed file checks its signatures against the very input that was signed. |
| EnvelopeSigning.PackedIsTaken | Telegram/SourceFiles/_other/packer.cpp:390-462 | What the one-pass path gives is taken by every client of its channel and target that runs an older version and holds no manifest, an older one or the same one. |
| EnvelopeSigningLaws.OnePassIff | Telegram/SourceFiles/_other/packer.cpp:390-462 | The one-pass path writes an unsigned envelope with its one signature, made of the region and the payload hash, if and only if that is within the bounds, has a version above zero, and is endorsed by the manifest it carries; it writes nothing otherwise. |
| EnvelopeSigningLaws.EmbeddedIff | Telegram/SourceFiles/_other/packer.cpp:464-549 | The two-pass path writes an envelope with the signatures of the files and then the key's if and only if it is unsigned and of the channel asked for, is within the bounds with them, has a version above zero, and is endorsed by the newer of the manifest carried and the one held. |
| EnvelopeVerify.VerifyUpdate | Telegram/SourceFiles/core/update_verify.cpp:856-924 | An update is taken if and only if it parses, is for this system, carries a manifest signed by the root, is allowed for the channel, is authorized by the newer of the two manifests, and is newer than what runs. |
| EnvelopeLaws.TakenIff | Telegram/SourceFiles/core/update_verify.cpp:856-924 | For every envelope: a client takes its bytes if and only if they are within the bounds, for its system, offered to its channel, newer than what runs, carry a manifest signed by the root, and the newer manifest endorses them: it has groups for the channel, and for each of them a key, the first of its id, neither revoked nor expired, that made one of the signatures over the region and the payload hash. What is taken names that manifest and whether it is a new one. |
| EnvelopeLaws.TakenIsBuilt | Telegram/SourceFiles/core/update_verify.cpp:856-924 | Whatever bytes are taken are those of the envelope that is taken. |
| EnvelopeLaws.UnsignedIsRefused | Telegram/SourceFiles/core/update_verify.cpp:907-924 | An update without a signature, or not newer than what runs, is refused by every client. |
| EnvelopeLaws.RevokedIsRefused | Telegram/SourceFiles/core/update_verify.cpp:774-831 | An update all of whose signatures are by keys that the manifest held has revoked is refused, unless it brings a newer manifest. |
| EnvelopeVerify.VerifyChannelAuthorization | Telegram/SourceFiles/core/update_verify.cpp:774-831 | The loops over groups, key ids, keys and signatures accept exactly if the channel has groups and each has a key id that is neither revoked nor of an expired key, with a signature of its first key over the signing input. |
| EnvelopeVerify.ChannelPolicyAllows | Telegram/SourceFiles/core/update_verify.cpp:833-854 | A channel updates from itself, stable from beta if beta is asked for, beta from stable, and public canaries from stable and beta ones of a later base version. |
| ListHash.MixIsBijective | Telegram/SourceFiles/api/api_hash.h:40-45 | The shift and exclusive-or mixing of the state is a bijection of 64-bit words, with its inverse given. |
| ListHash.UpdateIsBijective | Telegram/SourceFiles/api/api_hash.h:40-45 | One step is a bijection in the state for each value, and in the value for each state. |
| ListHash.HashRewinds | Telegram/SourceFiles/api/api_hash.h:63-70 | Hashing over a whole list is a bijection of the state: the state before it can be computed from the state after it. |
| ListHash.CommonSuffix | Telegram/SourceFiles/api/api_hash.h:63-70 | Lists with a common suffix have equal hashes if and only if they have without it. |
| ListHash.OneValueFits | Telegram/SourceFiles/api/api_hash.h:63-70 | At any place of any list exactly one value gives a wanted hash. |
| ListHash.OneDifference | Telegram/SourceFiles/api/api_hash.h:63-70 | Lists of equal length that differ at exactly one place have different hashes. |
| ListHash.HashUpdate | Telegram/SourceFiles/api/api_hash.h:40-45 | The two shifts to the right, the shift to the left, which loses what is above 64 bits, the exclusive ors and the wrapping addition give one step of the hash. |
| ListHash.CountHash | Telegram/SourceFiles/api/api_hash.h:63-70 | The loop gives the hash of the list. |
| StickerHash.CountStickersOrderHash | Telegram/SourceFiles/api/api_hash.cpp:38-61 | The hash of the hashes of those sets in the order that are there and neither special nor archived; zero if outdated sets count and the default set is in the order. |
| StickerHash.ChangeIsSeen | Telegram/SourceFiles/api/api_hash.cpp:38-61 | If one visible set changes its hash, the hash of an order that lists it once changes, and only then. |
| StickerHash.CountFeaturedHash | Telegram/SourceFiles/api/api_hash.cpp:63-78 | The hash of the ids, each followed by a one if its set is unread. |
| StickerHashLaws.PlaceIs | Telegram/SourceFiles/api/api_hash.cpp:46-57 | One place of an order adds the hash of its set if that is there, ordinary, not archived and not the default one, and nothing otherwise. |
| StickerHashLaws.HidingIsSeen | Telegram/SourceFiles/api/api_hash.cpp:46-57 | Archiving a set that counts, or making it special, changes the hash of an order that lists it once, unless its own hash leaves the state before it as it is. |
| StickerHashLaws.FeaturedPlaceIs | Telegram/SourceFiles/api/api_hash.cpp:68-76 | One place of the featured order adds its id, and a one behind it exactly if its set is known and unread. |
| StickerHash.ReadingIsSeen | Telegram/SourceFiles/api/api_hash.cpp:63-78 | Reading one set changes the hash exactly unless the state after its id is a fixed point of hashing a one. |
| MeshTools.BinobjToObj | Telegram/cmake/binobj2obj.py:34-80 | The printer gives the text of the decoded mesh, or fails for a file that is cut short or has bytes left over. |
| MeshTools.ObjToBinobj | Telegram/cmake/obj2binobj.py:35-69 | The baker gives the bytes of the mesh that the lines add up to, or fails for a line it cannot read or a number that does not fit. |
| MeshTools.Lists.ReadLine | Telegram/cmake/obj2binobj.py:36-58 | One line extends the lists by its tag; a face is cut into a fan of triangles; other lines are skipped; a field that is missing or is no number fails. |
| MeshLaws.FanIs | Telegram/cmake/obj2binobj.py:57-58 | A face of n corners, n at least 3, is cut into n - 2 triangles: triangle i has the corners 0, i + 1 and i + 2. |
| MeshLaws.FaceLineAdds | Telegram/cmake/obj2binobj.py:47-58 | A face line of n vertices adds just these triangles behind the corners there are, and changes nothing else. |
| MeshLaws.CornerForms | Telegram/cmake/obj2binobj.py:49-55 | A vertex of one, two, three or more fields: indices count from one, and one that is left out, empty or missing, becomes -1. |
| MeshLaws.BadFaceLine | Telegram/cmake/obj2binobj.py:49-55 | A face line with a vertex that is no number fails. |
| MeshLaws.FloatsLineAdds | Telegram/cmake/obj2binobj.py:41-46 | A line of floats adds as many as its tag asks for, to the list of its tag only, whatever follows them. |
| MeshLaws.ShortLineFails | Telegram/cmake/obj2binobj.py:41-46 | A line of floats with too few of them fails. |
| MeshLaws.LineOfAnyEnding | Telegram/cmake/obj2binobj.py:36 | A line may end in a line feed, a carriage return or both. |
| MeshLayoutLaws.FileIs | Telegram/cmake/obj2binobj.py:59-69 | The binary file place by place: four counts, the floats between them, and the corners behind the last one, up to the end. |
| MeshLayoutLaws.CornersAre | Telegram/cmake/obj2binobj.py:68-69 | Corner i is twelve bytes: position, texture and normal index, each in two's complement with the highest byte first. |
| MeshTheorems.DecodeEncoded | Telegram/cmake/obj2binobj.py:59-69 | The binary form of every mesh that fits is decoded to that mesh. |
| MeshTheorems.EncodeDecoded | Telegram/cmake/binobj2obj.py:34-55 | Every file that is accepted is the binary form of its mesh, so no two files are read alike. |
| MeshTheorems.ReadTextOfMesh | Telegram/cmake/obj2binobj.py:35-58 | Reading the printed text of a mesh gives its lists back, each cut to whole lines. |
| MeshTheorems.PrintThenBake | Telegram/cmake/binobj2obj.py:15 | Printing and baking a file gives its own bytes if and only if its float counts fill whole lines and its corners whole triangles. The comment in the tool promises it for all files. |
| MeshTheorems.BakeThenPrintThenBake | Telegram/cmake/obj2binobj.py:35-69 | Whatever text it was baked from, a baked file prints and bakes to itself. |
| MeshTheorems.LoneFloatIsLost | Telegram/cmake/binobj2obj.py:15 | A file with one position float bakes back to other bytes. |
| MessageDataCode.MessageDatas.RequestMessageData | Telegram/SourceFiles/apiwrap.cpp:639-652 | Registers the callback at the message's entry, and schedules a pass if no request asks for it yet. |
| MessageDataCode.MessageDatas.ResolveMessageDatas | Telegram/SourceFiles/apiwrap.cpp:684-738 | A pass sends one request for each table with waiting entries, for exactly those, and stamps them with its id. |
| MessageDataCode.MessageDatas.FinalizeMessageDataRequest | Telegram/SourceFiles/apiwrap.cpp:740-770 | Takes the entries with this id out of the channel's table, drops a table that gets empty, and calls their callbacks. |
| MessageDataTheorems.RunKeepsInv | Telegram/SourceFiles/apiwrap.cpp:639-770 | In every run each entry is asked for by the request in flight whose id it carries, in its own channel, or has id zero with a pass scheduled. |
| MessageDataTheorems.CallbacksAreConserved | Telegram/SourceFiles/apiwrap.cpp:639-770 | In every run the registered callbacks are those called, each once, and those held, at the message they were registered for; none is both. |
| MessageDataTheorems.AnswerRemovesItsEntries | Telegram/SourceFiles/apiwrap.cpp:740-770 | In every run an answer removes exactly the entries its request asked for and calls all their callbacks. |
| MessageDataTheorems.NothingIsForgotten | Telegram/SourceFiles/apiwrap.cpp:639-770 | When nothing is in flight or scheduled, no entry is left and all callbacks were called. |
| MessageDataLaws.ScheduledIffSomeWaits | Telegram/SourceFiles/apiwrap.cpp:639-738 | In every run a pass is scheduled if and only if some message waits that no request asks for. |
| MessageDataLaws.PassIs | Telegram/SourceFiles/apiwrap.cpp:684-738 | A pass keeps each entry with its callbacks; one that was asked for keeps its request, and one that waited gets a new request in flight that asks for it. |
| MessageDataLaws.TogetherIff | Telegram/SourceFiles/apiwrap.cpp:684-738 | Two messages that waited get the same request if and only if they are in the same channel, or both outside of one. |
| MessageDataLaws.PassDropsEmpty | Telegram/SourceFiles/apiwrap.cpp:709-713 | A pass leaves no channel with an empty table, whatever tables there were. |
| MessageDataLaws.CalledInOrder | Telegram/SourceFiles/apiwrap.cpp:639-770 | In every run the callbacks registered for a message are, in that order, first those called and then those held. |
| MessageDataLaws.AnswerCallsLowerFirst | Telegram/SourceFiles/apiwrap.cpp:740-770 | An answer calls the callbacks of its messages in the order of their ids. |
| WebPagesCode.WebPages.ResolveWebPages | Telegram/SourceFiles/apiwrap.cpp:2684-2760 | The pass, with its temporary negative ids, gives the table, the requests and the timer that assigning each due page the request of its channel gives. |
| WebPagesCode.WebPages.RequestWebPageDelayed | Telegram/SourceFiles/apiwrap.cpp:2661-2670 | A page that has not failed becomes pending, and the timer is brought forward. |
| WebPagesCode.WebPages.GotWebPages | Telegram/SourceFiles/apiwrap.cpp:3038-3056 | An answer takes out the pages of its request, which are marked as failed if they are still due for content. |
| WebPagesCode.WebPages.TimerFired | Telegram/SourceFiles/apiwrap.cpp:201 | The timer, which fires once, calls for a pass. |
| WebPagesTheorems.PassAssignsRequests | Telegram/SourceFiles/apiwrap.cpp:2684-2760 | In every run, after a pass each page it touched holds the id of the one new request to the page's own channel, which asks for its message; two pages share it if and only if they share the channel; other pages are unchanged; nothing is negative. |
| WebPagesTheorems.AsksForTouched | Telegram/SourceFiles/apiwrap.cpp:2696-2743 | A request asks for nothing but the messages of touched pages of its channel that hold its id. |
| WebPagesTheorems.NoTemporaryIdIsLeft | Telegram/SourceFiles/apiwrap.cpp:2744-2756 | No pending value is negative after a pass. |
| WebPagesTheorems.OneRequestForEachChannel | Telegram/SourceFiles/apiwrap.cpp:2696-2743 | Two touched pages get the same request exactly if they are in the same channel. |
| WebPagesTheorems.RunKeepsInv | Telegram/SourceFiles/apiwrap.cpp:2661-2760 | In every run pending ids are zero or sent requests that are for the page. |
| WebPagesTheorems.TimerDoesNotOversleep | Telegram/SourceFiles/apiwrap.cpp:2684-2760 | After a pass the timer is set for no later than the time of any page that is still to wait, or a day. |
| WebPagesTheorems.WaitersAreTimed | Telegram/SourceFiles/apiwrap.cpp:2661-2760 | In every run, with time passing and the timer firing, no page waits to be asked for while the timer is not active, but those that the last pass could neither ask for nor wait for. |
| WebPagesLaws.AskedIff | Telegram/SourceFiles/apiwrap.cpp:2696-2756 | A page without a request gets one in a pass, for its channel and with its message, if and only if its time has come and a message shows it; every other page stays as it is. |
| WebPagesLaws.SharedIff | Telegram/SourceFiles/apiwrap.cpp:2696-2756 | Two such pages share a request if and only if their messages are in the same channel, or both outside of one. |
| WebPagesLaws.AsksForExactly | Telegram/SourceFiles/apiwrap.cpp:2696-2743 | A new request asks for exactly the messages of such pages in its channel; the requests before it stay. |
| WebPagesLaws.IsForExactly | Telegram/SourceFiles/apiwrap.cpp:2744-2756 | A new request is for exactly those pages. |
| WebPagesLaws.TimerIs | Telegram/SourceFiles/apiwrap.cpp:2684-2760 | A pass sets the timer to the time of the earliest page that is not due, a day at most, or leaves it, if no page is to be waited for. |
| WebPagesLaws.DelayIs | Telegram/SourceFiles/apiwrap.cpp:2661-2670 | A page with content or failed changes nothing; another becomes pending, once, and the timer is kept, if it comes before the page's time, or set to a millisecond after that. |
| WebPagesLaws.ClearIs | Telegram/SourceFiles/apiwrap.cpp:2672-2677 | A page that is cleared is forgotten, and the timer stopped with the last one. |
| WebPagesLaws.AnswerIs | Telegram/SourceFiles/apiwrap.cpp:3038-3056 | An answer takes out exactly the pages of its request; those still without content have failed, and are not waited for again, and no other page changes. |
| DialogsCode.DialogsLoader.RequestMoreDialogs | Telegram/SourceFiles/apiwrap.cpp:921-993 | Asks for the next page only if the load is there, has no request and is not blocked; then also asks for the pinned ones. |
| DialogsCode.DialogsLoader.ListDone | Telegram/SourceFiles/apiwrap.cpp:946-982 | An answer clears the id, moves the offset or ends the list, and asks for more as the exceptions and the archive need it. |
| DialogsCode.DialogsLoader.ListFail | Telegram/SourceFiles/apiwrap.cpp:983-985 | A failure clears the id of a load that is there. |
| DialogsCode.DialogsLoader.UpdateDialogsOffset | Telegram/SourceFiles/apiwrap.cpp:1027-1074 | The load moves on to the last date, or is finished with. |
| DialogsCode.DialogsLoader.DialogsLoadFinish | Telegram/SourceFiles/apiwrap.cpp:1084-1101 | A load with both answers is dropped and announced. |
| DialogsCode.DialogsLoader.ChooseTimeSlice | Telegram/SourceFiles/apiwrap.cpp:286-299 | Choosing the time slice of support mode moves the limit, or takes it away for zero, and looks at the date again. |
| DialogsCode.DialogsLoader.RequestMoreBlockedByDateDialogs | Telegram/SourceFiles/apiwrap.cpp:1150-1160 | Moves the limit by one time slice, looks at the date again, and asks for the next page. |
| DialogsTheorems.OneRequestAtATime | Telegram/SourceFiles/apiwrap.cpp:914-1148 | In every run each list has at most one list and one pinned request outstanding; an outstanding list request is the one its load knows of, which is there and not received; so the failure handler never dereferences a missing load. |
| DialogsTheorems.ReceivedListIsNotAskedAgain | Telegram/SourceFiles/apiwrap.cpp:921-993 | In every run a received list has no request outstanding, and none is sent for it. |
| DialogsTheorems.DoneOnceForEachLoad | Telegram/SourceFiles/apiwrap.cpp:1084-1101 | In every run each load that began was announced as done once, or is still there. |
| DialogsTheorems.DoneNeedsBothAnswers | Telegram/SourceFiles/apiwrap.cpp:1084-1148 | Only an answer announces a load: the one that completes it, when the other has come before. |
| DialogsLaws.MoreIs | Telegram/SourceFiles/apiwrap.cpp:921-993 | A load without a request is asked for under a fresh id while nothing is blocked, and its pinned dialogs with it if they are neither there nor on their way; no other load changes. |
| DialogsLaws.RequestBegins | Telegram/SourceFiles/apiwrap.cpp:914-993 | A folder asked for the first time begins a load, with a list and a pinned request unless something is blocked. |
| DialogsLaws.PageIs | Telegram/SourceFiles/apiwrap.cpp:946-982 | What an answer makes of its load: a page with a date moves it on and frees it, the end of the list marks it, drops and announces it if the pinned ones are there, and "not modified" leaves it; no other load changes. |
| DialogsLaws.AsksOn | Telegram/SourceFiles/apiwrap.cpp:1007-1025 | After an answer the next page of the main list is asked for until it is there, and then the archive, if it is needed; nothing, if a filter's exceptions come first. |
| DialogsLaws.AnswersDoNotStall | Telegram/SourceFiles/apiwrap.cpp:946-1025 | In every state that a run can reach, after an answer a list that is wanted has a request on its way unless it is blocked. |
| DialogsTheorems.RunKeepsInv | Telegram/SourceFiles/apiwrap.cpp:914-1160 | In every run the loads and the requests in flight know each other. |
| DialogsTheorems.BlockedOnlyByDate | Telegram/SourceFiles/apiwrap.cpp:286-1005 | In every run, if blocked is published then a page of the main list is there to be asked for and the date holds it back. |
| DialogsTheorems.AlwaysExactIffSeen | Telegram/SourceFiles/apiwrap.cpp:286-1160 | In every run, with the time slice chosen at any moment, what is published as blocked agreed at every moment with whether a page is held back, if and only if no request of the main list failed with its offset behind the limit: that failure leaves the page held back and nobody looks again. |
| DialogsTheorems.ExactUnlessShortened | Telegram/SourceFiles/apiwrap.cpp:286-1160 | Such a failure comes only after the time slice was chosen while a page of the main list was on its way: in every run without that, blocked is exact at every moment. |
| DialogsTheorems.FailureGoesUnseen | Telegram/SourceFiles/apiwrap.cpp:286-1005 | A run where it happens: the time slice is shortened while a page is on its way, and its request fails. |
| DialogsLaws.ButtonIs | Telegram/SourceFiles/apiwrap.cpp:1150-1160 | In every run the button moves the limit to one slice before the page that is held back, and that page is asked for if and only if the slice is above zero. |
| DialogsLaws.SliceIs | Telegram/SourceFiles/apiwrap.cpp:286-299 | A chosen slice blocks the next page if and only if it is not empty and the offset of a list that waits to be asked for is at least as old; zero blocks nothing. |
| DialogsLaws.MayBlockIffLimited | Telegram/SourceFiles/apiwrap.cpp:995-1005 | In every run, while the main list is to be loaded, it may be blocked if and only if there is a limit. |
| DialogsLaws.SliceIsChosen | Telegram/SourceFiles/apiwrap.cpp:286-299 | In every run the slice is the one chosen last, or a week. |
| DraftsCode.DraftSaver.SaveDraftsToCloud | Telegram/SourceFiles/apiwrap.cpp:2575-2614 | The pass drops destroyed threads and skipped drafts, keeps those in flight, and sends the others. |
| DraftsCode.DraftSaver.SaveDraftToCloud | Telegram/SourceFiles/apiwrap.cpp:2348-2365 | A draft that serializes is sent, after the save its cloud draft knows of is cancelled, and is tracked; another changes nothing. |
| DraftsCode.DraftSaver.SaveFailed | Telegram/SourceFiles/apiwrap.cpp:2540-2559 | The first failure for a file reference of a rich draft waits for a fresh one; any other is cleaned up after. |
| DraftsCode.DraftSaver.FileReferenceRefreshed | Telegram/SourceFiles/apiwrap.cpp:2545-2555 | The save is repeated once under a new id, which is tracked in the place of the old one, or cleaned up after. |
| DraftsCode.DraftSaver.IsQuitPrevent | Telegram/SourceFiles/apiwrap.cpp:2616-2623 | Quitting is held up exactly if the table is not empty after a pass. |
| DraftsTheorems.TrackedIsInProgress | Telegram/SourceFiles/apiwrap.cpp:2348-2632 | In every run a non-zero id tracked for a thread that exists is that of its own save, in flight or waiting for a file reference: never a cancelled one. |
| DraftsTheorems.AnswerTakesItsOwnEntry | Telegram/SourceFiles/apiwrap.cpp:2459-2559 | An answer takes an entry out only if its id is the one tracked, and changes no other entry but that of its own repetition. |
| DraftsTheorems.EmptyingIsAnnounced | Telegram/SourceFiles/apiwrap.cpp:2616-2632 | The answer that empties the table announces the end of quit prevention, once, and no other answer does. |
| DraftsTheorems.SaveKeepsAllTracked | Telegram/SourceFiles/apiwrap.cpp:2348-2365 | A save leaves every tracked id in progress if and only if no other entry tracks the save it cancels. |
| DraftsTheorems.StepKeepsAllTracked | Telegram/SourceFiles/apiwrap.cpp:2348-2632 | From a state where every tracked id is in progress, of whatever thread, any step leads to such a state if and only if it is not a save at once that cancels a save which another entry tracks. |
| DraftsTheorems.AlwaysTrackedIffNoOrphans | Telegram/SourceFiles/apiwrap.cpp:2348-2632 | In every run every tracked id was in progress at every moment if and only if there was no such step. |
| DraftsTheorems.SharedIsDead | Telegram/SourceFiles/apiwrap.cpp:2348-2365 | Such an entry is of a destroyed thread. |
| DraftsTheorems.DeadEntryTracksCancelled | Telegram/SourceFiles/apiwrap.cpp:2348-2365 | A run where the entry of a destroyed thread tracks a cancelled save. |
| DraftsTheorems.PassTracksAll | Telegram/SourceFiles/apiwrap.cpp:2575-2614 | A pass leaves every tracked id in progress, of whatever thread. |
| DraftsLaws.PassIs | Telegram/SourceFiles/apiwrap.cpp:2575-2614 | In every run, what a pass makes of each thread: destroyed, skipped and unserializable ones leave the table, one in progress stays, and each other is in flight under a new id that the table and its draft hold. |
| DraftsLaws.PassFlies | Telegram/SourceFiles/apiwrap.cpp:2575-2614 | In every run, a pass cancels exactly the saves that the drafts of the threads it sends knew of, unless a draft is new, and sends nothing else. |
| DraftsLaws.DelayIs | Telegram/SourceFiles/apiwrap.cpp:2125-2133 | A delayed save gets an entry and the timer, unless its chat is to be skipped, which changes nothing. |
| DraftsLaws.NowIs | Telegram/SourceFiles/apiwrap.cpp:2348-2365 | A save at once is in flight under a new id that the table and the draft hold, in place of exactly the one that the draft knew of, and will not drop the draft; one that does not serialize changes nothing. |
| DraftsLaws.AnswerDrafts | Telegram/SourceFiles/apiwrap.cpp:2459-2559 | An answer drops a draft if and only if it ends a save without success that a pass had sent and that the draft knows of; the draft that knows of another answered save forgets it, or knows of the repeated one. |
| DraftsLaws.AnswerFlies | Telegram/SourceFiles/apiwrap.cpp:2540-2559 | An answer takes its save out of flight; the first failure for a file reference of a rich one makes it wait, and only that; a fresh reference sends it once more. |
| DraftsLaws.RefreshedOnce | Telegram/SourceFiles/apiwrap.cpp:2540-2559 | In every run only rich saves that were not repeated yet wait for a fresh reference, so each is repeated once at most. |
| DraftsAnnounced.StepAnnounces | Telegram/SourceFiles/apiwrap.cpp:2459-2632 | Of all steps only an answer announces the end of quit prevention, and only the one that empties the table; a pass announces nothing. |
| DraftsAnnounced.StepKeepsFlight | Telegram/SourceFiles/apiwrap.cpp:2348-2632 | From a state where every save in flight of a thread that exists is the one tracked, a step leads to such a state if and only if it is neither a save at once over one in flight that the cloud draft does not know of, nor the repetition of a save whose entry is gone or tracks another save in flight. |
| DraftsAnnounced.AlwaysFlightTrackedIffNothingLost | Telegram/SourceFiles/apiwrap.cpp:2348-2632 | In every run those saves were tracked at every moment if and only if there was no such step. |
| DraftsAnnounced.AnnouncedIsIdle | Telegram/SourceFiles/apiwrap.cpp:2348-2632 | In every run without such a step, when the end of quit prevention is announced no save of a thread that exists is in flight. |
| DraftsAnnounced.AnnouncedTooEarly | Telegram/SourceFiles/apiwrap.cpp:2459-2632 | A run with such a repetition, where the end is announced while the newer save is in flight. |
| ForwardCode.ForwardMessages | Telegram/SourceFiles/apiwrap.cpp:3825-4088 | The loops that accumulate ids send the batches of the ranges of the items that are not music, in an order of their positions; the callback is called at once exactly if there are none. |
| ForwardCode.CollectForwardRanges | Telegram/SourceFiles/history/history_item_helpers.cpp:666-686 | Splits the items, in an order of their positions, where the ephemeral flag changes, without those that are lost. |
| ForwardTheorems.ForwardingIsFaithful | Telegram/SourceFiles/apiwrap.cpp:3825-4088 | For every list that is picked and every order of its positions, however those at one position come: the batches concatenate to the ordered items that can be found; each is not empty, has as many random ids as ids, and one peer and flag; the stars paid are the price of all items or what was approved, the lesser. |
| ForwardTheorems.StarsAreShared | Telegram/SourceFiles/apiwrap.cpp:3950-3962 | The stars paid and the stars left add up to those approved, however the items are split. |
| ForwardTheorems.GroupsAreMaximal | Telegram/SourceFiles/apiwrap.cpp:4075-4079 | Neighbouring batches of a range come from different peers. |
| ForwardTheorems.EachItemDrawsOnce | Telegram/SourceFiles/apiwrap.cpp:4048-4083 | The random ids of all batches are those drawn, in order. |
| ForwardLaws.EachItemIsForwarded | Telegram/SourceFiles/apiwrap.cpp:3825-4088 | The batches together forward the items found, one by one and in order: each from its own peer, with its own flag, under its looked-up id if it is ephemeral and its own if not, and with the next random number. |
| ForwardLaws.FoundAre | Telegram/SourceFiles/history/history_item_helpers.cpp:666-686 | The items left out are exactly the ephemeral ones without a looked-up id. |
| ForwardLaws.MusicIsApart | Telegram/SourceFiles/apiwrap.cpp:3832-3840 | An item is sent as music if and only if it is music of a profile. |
| ForwardCallback.CalledOnceIffAllSucceed | Telegram/SourceFiles/apiwrap.cpp:4008-4036 | In every run of answers the shared callback was called once if all batches have succeeded, and never otherwise. |
| StickerSaveCode.StickerSets.SaveStickerSets | Telegram/SourceFiles/apiwrap.cpp:1689-1847 | The four loops over sets, order and recent stickers give the state that removing, clearing, installing and sweeping give. |
| StickerSaveTheorems.StoredOrder | Telegram/SourceFiles/apiwrap.cpp:1799-1833 | The stored order is the local order without sets that do not exist afterwards; each set in it exists and is installed. |
| StickerSaveTheorems.InstalledIffOrdered | Telegram/SourceFiles/apiwrap.cpp:1786-1833 | A set of the saved type that is not archived afterwards is installed if and only if the local order has it. |
| StickerSaveTheorems.SavedRecentsAreNotRemoved | Telegram/SourceFiles/apiwrap.cpp:1704-1750 | No recent sticker is left that belongs to a removed set that existed before the save, and none is added. |
| StickerSaveTheorems.InstallsFromArchive | Telegram/SourceFiles/apiwrap.cpp:1806-1827 | An install request is sent exactly for the sets in the order that are archived after the removals and were not to be removed. |
| StickerSaveTheorems.OthersAreUntouched | Telegram/SourceFiles/apiwrap.cpp:1704-1847 | A set of another type in neither list stays as it was, if it has a reason to be kept. |
| StickerSaveTheorems.UninstallsRemoved | Telegram/SourceFiles/apiwrap.cpp:1740-1767 | An uninstall request is sent for a set exactly if its turn to be removed comes while it is there and not archived. |
| StickerSaveLaws.FateIs | Telegram/SourceFiles/apiwrap.cpp:1704-1847 | What a save makes of every set, from its flags before and the two lists alone: whether it stays, and whether it is then installed and archived, and since when; all else in it is unchanged. |
| StickerSaveLaws.NoNewSets | Telegram/SourceFiles/apiwrap.cpp:1704-1847 | A save adds no set. |
| StickerSaveLaws.RecentsLeft | Telegram/SourceFiles/apiwrap.cpp:1704-1750 | The recent stickers left are those of no removed set, in their order; none, if one of the cloud recents is removed. |
| StickerSaveLaws.RecentsLeftAre | Telegram/SourceFiles/apiwrap.cpp:1743-1750 | Unless one of those is removed, a recent sticker stays if and only if no removed set that was there has it. |
| StickerSaveLaws.ClearsAreAsked | Telegram/SourceFiles/apiwrap.cpp:1721-1737 | A clearing of each kind is asked for exactly as often as its own id is among the removed ones. |
| StickerSaveLaws.UninstallsAsked | Telegram/SourceFiles/apiwrap.cpp:1740-1767 | A removed set that is not archived is asked to be uninstalled once if it goes, and once for each removal if it is kept; no other set is. |
| StickerSaveLaws.InstallsAsked | Telegram/SourceFiles/apiwrap.cpp:1806-1827 | A set is asked to be installed once if the order takes it out of the archive, and never otherwise. |
| StickerSyncCode.StickerSync.SaveStickerSets | Telegram/SourceFiles/apiwrap.cpp:1612-1881 | A save cancels what the last save of the type left open and the requests that clear recent stickers, updates the sets, sends the requests of that update, and sends the order at once if there is nothing to wait for. |
| StickerSyncCode.StickerSync.RequestAnswered | Telegram/SourceFiles/apiwrap.cpp:1612-1687 | The last answer to the install and uninstall requests of a save sends its order; an answer to a clearing or an order forgets its id. |
| StickerSyncTheorems.OrderWaitsForAnswers | Telegram/SourceFiles/apiwrap.cpp:1612-1881 | In every run, for each type: orders are sent in the order of the saves, each at most once; the last one exactly when none of its install and uninstall requests is unanswered and it has two sets at least; only the last save's requests are in flight. |
| StickerSyncTheorems.OnlyTheLastOrderIsSent | Telegram/SourceFiles/apiwrap.cpp:1612-1881 | No step of any run sends the order of any save but the last one of the type, and none twice. |
| StickerSyncTheorems.SaveSendsItsRequests | Telegram/SourceFiles/apiwrap.cpp:1740-1827 | The requests of an update of the sets are in flight after the save, one by one under fresh ids, and the order waits for each install and uninstall among them. |
| StickerSyncTheorems.SaveCancels | Telegram/SourceFiles/apiwrap.cpp:1612-1637 | Of the requests in flight, a save cancels exactly the install, uninstall and order requests of its own type and the requests, of whatever type, that clear recent stickers and whose ids it keeps. |
| StickerSyncLaws.SaveKnowsItsClearings | Telegram/SourceFiles/apiwrap.cpp:1612-1737 | After a save the id kept for a clearing of each kind is that of one in flight if the save asked for one, and zero otherwise. |
| StickerSyncLaws.AnswerForgets | Telegram/SourceFiles/apiwrap.cpp:1729-1737 | An answer clears the id kept for one kind if and only if it answers a clearing of that kind. |
| StickerSyncLaws.ClearingsAreInFlight | Telegram/SourceFiles/apiwrap.cpp:1612-1881 | In every run the ids kept for clearings are of clearings in flight, each of its kind. |
| StickerSyncTheorems.SaveLeavesSetsSound | Telegram/SourceFiles/apiwrap.cpp:1689-1881 | After a save the stored order of the type is the local one without sets that do not exist, its sets are installed, every set left has a reason, and the orders of the other types stay. |
| AlbumCode.SendingAlbums.SendAlbumIfReady | Telegram/SourceFiles/apiwrap.cpp:5502-5615 | The loop over the items sends the album, on the path its options choose, exactly when it may go out, and drops an empty one. |
| AlbumCode.SendingAlbums.SendMultiPaidMedia | Telegram/SourceFiles/apiwrap.cpp:5373-5467 | Paid media go out bare, with the text of the sample and the random number of the first item for all of them. |
| AlbumCode.SendingAlbums.SendAlbumWithUploaded | Telegram/SourceFiles/apiwrap.cpp:5469-5482 | Fills the item's media, then sends the album if it is ready. |
| AlbumCode.SendingAlbums.SendAlbumWithCancelled | Telegram/SourceFiles/apiwrap.cpp:5484-5500 | Takes the item out of an album that is still there, then sends it if it is ready. |
| AlbumCode.SendingAlbums.RemoveItem | Telegram/SourceFiles/storage/localimageloader.cpp:428-447 | Takes one item out; a first item hands its text on. |
| AlbumTheorems.SentAtMostOnce | Telegram/SourceFiles/apiwrap.cpp:5373-5615 | In every run no album is sent twice, on any of the four paths. |
| AlbumTheorems.StarsAreApproved | Telegram/SourceFiles/apiwrap.cpp:5398-5568 | In every run an album costs no more stars than were approved for it. |
| AlbumTheorems.StarsAreConserved | Telegram/SourceFiles/apiwrap.cpp:5398-5568 | In every run the stars left in an album and those its request took add up to those approved. |
| AlbumHistory.StepSends | Telegram/SourceFiles/apiwrap.cpp:5469-5615 | A step of a run sends an album exactly if it is the upload or cancelling that completes it: told from the events, every message left of those it was created with has its media, and one of them is there. It then sends that album only, and what was chosen. |
| AlbumHistory.SentWasChosen | Telegram/SourceFiles/apiwrap.cpp:5373-5615 | In every run, each request that went out has the medias uploaded for the messages that the album was created with and that were not cancelled, in creation order, on the path that the price and the reply of the first one there decide: a group and a single one with the random number of each, paid media with the first random number only; to an ephemeral target those still there, without random numbers. |
| AlbumCaptions.SentWithTheirTexts | Telegram/SourceFiles/apiwrap.cpp:5373-5615 | In every run, what goes out has the texts of that moment, also after a cancelled first message has handed its own on: each media of a group or to an ephemeral target that of its message, a single one its own, and paid media that of the first message that is there. |
| AlbumTexts.AllTextsGoOutIff | Telegram/SourceFiles/apiwrap.cpp:5373-5615 | In every run, as often as messages of an album have a text the request carries it, if and only if the album is not paid or no message but the first one there has a text. |
| AlbumTexts.PaidTextIsLost | Telegram/SourceFiles/apiwrap.cpp:5373-5467 | A run where a paid album of two messages with the texts a and b goes out with the text a and the first random number only. |
| AlbumUploads.UploadFindsItsItem | Telegram/SourceFiles/apiwrap.cpp:5478 | In every run, an upload finds its album and its item, not filled yet, exactly if its message is one of those chosen, is there, and was not uploaded before: so the assertions that the album is there and the item empty hold. |
| AlbumUploads.CancelFindsItsItem | Telegram/SourceFiles/storage/localimageloader.cpp:428-432 | In every run, a cancellation finds its item in an album that is still there exactly if its message is one of those chosen. |
| AlbumLaws.MessagesAfter | Telegram/SourceFiles/storage/localimageloader.cpp:428-447 | What a step makes of every message: a cancelled one goes, and of the texts only that of the message next to a cancelled first one changes: its own stays in front, and the other comes behind a line end. |
| AlbumLaws.AlbumStaysIff | Telegram/SourceFiles/apiwrap.cpp:5373-5615 | In every run an album is dropped if and only if it is complete and goes to an ephemeral place or is a single unpaid media, has no message left that is there when all are uploaded, is answered, or was a group that failed; it counts as sent from the step that completes it. |
| AlbumLaws.StarsAre | Telegram/SourceFiles/apiwrap.cpp:5373-5615 | In every run what goes out costs nothing at an ephemeral place, the price of one message as paid media, and that price for each message chosen otherwise, or what was approved, if that is less. |
| AlbumLaws.FlightAfter | Telegram/SourceFiles/apiwrap.cpp:5373-5615 | In every run a request is in flight from the step that sends paid media or a group, under the next id, until it is answered. |
| InviteLinksCode.BringPermanentToFront | Telegram/SourceFiles/api/api_invite_links.cpp:28-36 | The first live permanent link is rotated to the front in place. |
| InviteLinksTheorems.FrontedIsRotation | Telegram/SourceFiles/api/api_invite_links.cpp:28-36 | The result is a permutation that has that link in front and keeps the order of the others. |
| InviteLinksTheorems.FrontedIffOneLive | Telegram/SourceFiles/api/api_invite_links.cpp:28-36 | A live permanent link is only in front afterwards if and only if there was one at most. |
| InviteLinksCode.InviteLinks.PrependMyToFirstSlice | Telegram/SourceFiles/api/api_invite_links.cpp:162-205 | Puts a new link in front, after a permanent one that stays, or in its place. |
| InviteLinksCode.InviteLinks.EditDone | Telegram/SourceFiles/api/api_invite_links.cpp:279-319 | A revoked link is taken out, another is replaced by the edited one, and a replacement is prepended. |
| InviteLinksCode.InviteLinks.MyLinksReceived | Telegram/SourceFiles/api/api_invite_links.cpp:426-451 | A reload keeps the permanent link that is known, or brings the slice's to the front. |
| InviteLinksTheorems.ReloadKeepsPermanent | Telegram/SourceFiles/api/api_invite_links.cpp:426-451 | With a permanent link known, a reload gives that link followed by the slice's other links, without it and without any other live permanent one. |
| InviteLinksCode.InviteLinks.SetMyPermanent | Telegram/SourceFiles/api/api_invite_links.cpp:620-676 | Takes over the use count of the same link, or replaces the permanent link. |
| InviteLinksCode.InviteLinks.ClearMyPermanent | Telegram/SourceFiles/api/api_invite_links.cpp:678-707 | Takes the permanent link out. |
| InviteLinksCode.InviteLinks.ApplyExternalUpdate | Telegram/SourceFiles/api/api_invite_links.cpp:522-538 | Every entry with the updated link is overwritten. |
| InviteLinksLaws.CreateKeepsOthers | Telegram/SourceFiles/api/api_invite_links.cpp:162-205 | A new link comes in front of the others, behind a permanent one that stays or in its place; no other link is lost or moved. |
| InviteLinksLaws.SetKeepsOthers | Telegram/SourceFiles/api/api_invite_links.cpp:620-676 | The link that is set takes the place of another permanent one, or gives the same one its use count and nothing else; the others stay. |
| InviteLinksLaws.ClearKeepsOthers | Telegram/SourceFiles/api/api_invite_links.cpp:678-707 | Without the permanent link the others are left. |
| InviteLinksLaws.EditIs | Telegram/SourceFiles/api/api_invite_links.cpp:279-319 | An edit takes the first link of its name out if it revokes it, and replaces it otherwise, also if it was revoked before; the rest of the list stays. |
| InviteLinksLaws.UpdateIs | Telegram/SourceFiles/api/api_invite_links.cpp:522-538 | An update reaches every entry of its link and no other. |
| InviteLinksLaws.ReloadIs | Telegram/SourceFiles/api/api_invite_links.cpp:426-451 | Without a known permanent link a reload gives the slice, its first live permanent link moved to the front. |
| InviteLinksTheorems.StepIffKeepsRule | Telegram/SourceFiles/api/api_invite_links.cpp:162-707 | From a cache where only the first link may be live and permanent, a step leads to such a cache if and only if an edit or update makes no other entry one and a first slice has one at most. |
| InviteLinksTheorems.RuleBreaks | Telegram/SourceFiles/api/api_invite_links.cpp:279-538 | From one cache that keeps the rule, an edit, an update and a first slice that each break it. |
| InviteLinksTheorems.RunKeepsRule | Telegram/SourceFiles/api/api_invite_links.cpp:162-707 | Every run of such steps keeps the rule. |
| InviteLinksTheorems.LookupIsComplete | Telegram/SourceFiles/api/api_invite_links.cpp:124-141 | So looking at the first link finds the live permanent link wherever there is one. |
| UpdaterCode.CollectUpdate | Telegram/SourceFiles/_other/updater_linux.cpp:232-290 | For every finite tree the walk ends; it fails exactly if a directory does not open or a file would replace the updater; otherwise the lists hold each wanted file once, with its target beside it, and each directory once, behind its parent. |
| UpdaterCode.Updater.Visit | Telegram/SourceFiles/_other/updater_linux.cpp:254-286 | One entry: skipped, queued, listed with its target, or a failure. |
| UpdaterTheorems.FilesAre | Telegram/SourceFiles/_other/updater_linux.cpp:254-286 | A path is listed if and only if it is a file of the tree, outside tdata, and not the ready file. |
| UpdaterTheorems.FilesAreDistinct | Telegram/SourceFiles/_other/updater_linux.cpp:254-286 | No file is listed twice. |
| UpdaterTheorems.DirsAre | Telegram/SourceFiles/_other/updater_linux.cpp:237-265 | A directory is visited if and only if it is one of the tree outside tdata. |
| UpdaterTheorems.DirsAreDistinct | Telegram/SourceFiles/_other/updater_linux.cpp:237-265 | No directory is visited twice. |
| UpdaterTheorems.TdataTest | Telegram/SourceFiles/_other/updater_linux.cpp:260 | The test on the text of a path finds exactly what lies in tdata, not what only begins like its name. |
| UpdaterLaws.TargetIs | Telegram/SourceFiles/_other/updater_linux.cpp:267-275 | Each file goes to its own path below the program's directory; only the program itself, right there and in whatever case, takes the name of the running one if that has another. |
| UpdaterLaws.TargetsDiffer | Telegram/SourceFiles/_other/updater_linux.cpp:267-275 | Different files, the program apart, have different targets. |
| UpdaterLaws.ListedIff | Telegram/SourceFiles/_other/updater_linux.cpp:232-290 | From the root: what is listed as a file, and visited as a directory, as paths of the tree. |
| UpdaterLaws.FailsIff | Telegram/SourceFiles/_other/updater_linux.cpp:248-271 | The update fails if and only if outside tdata a directory does not open, or a file's target is the updater's own path up to case. |
| FrameQueueCode.Shell.PostToFrame | Telegram/Resources/bot_webview_shell_html/page.js:152-166 | Queues the event for a frame that is not loaded and trims the queue from the front, or sends it. |
| FrameQueueCode.Shell.FlushPendingEvents | Telegram/Resources/bot_webview_shell_html/page.js:214-221 | Takes the queue and sends what is of the current generation. |
| FrameQueueCode.Shell.CreateIframe | Telegram/Resources/bot_webview_shell_html/page.js:944-972 | A new generation with an empty queue and no timer. |
| FrameQueueCode.Shell.ReloadFrame | Telegram/Resources/bot_webview_shell_html/page.js:978-994 | Asks a frame that can reload itself and sets the timer anew, or creates another frame. |
| FrameQueueTheorems.QueueIsForThisFrame | Telegram/Resources/bot_webview_shell_html/page.js:152-221 | In every run the queue has at most 64 events, all posted for the current frame, and a loaded frame has an empty queue. |
| FrameQueueTheorems.DeliveredToTheirFrame | Telegram/Resources/bot_webview_shell_html/page.js:136-221 | In every run each delivered event reached the frame it was posted for, in posting order and once. |
| FrameQueueTheorems.LoadDeliversTheLastEvents | Telegram/Resources/bot_webview_shell_html/page.js:956-963 | In every run a load delivers, in posting order, exactly the last 64 or fewer of the events posted since the frame was last not loaded, or none to a frame of the same origin whose origin is unknown. |
| FrameQueueTheorems.WaitingSinceUnloaded | Telegram/Resources/bot_webview_shell_html/page.js:152-166 | In every run the waiting events are all those posted since the last step that left the frame new, loaded, or not loaded any more, in posting order. |
| FrameQueueTheorems.NoFallbackAfterDisarming | Telegram/Resources/bot_webview_shell_html/page.js:858-994 | After a reload is announced by the frame or a frame is created, no fallback reload fires until another reload is asked for. |
| FrameQueueLaws.PostIs | Telegram/Resources/bot_webview_shell_html/page.js:152-166 | In every run an event posted to a loaded frame is delivered to it at once, if that may receive any; one posted before is queued, and the oldest goes if 64 are queued. |
| FrameQueueLaws.EachEventHasItsFate | Telegram/Resources/bot_webview_shell_html/page.js:152-221 | In every run each event posted for the current frame, if that may receive any, was delivered, is queued, or was trimmed, and just one of these; it is trimmed exactly when the 64th event after it is posted before the frame is loaded. |
| FrameQueueLaws.FrameIsBooted | Telegram/Resources/bot_webview_shell_html/page.js:944-1012 | In every run the frame is that of the last page the shell was started with, which tells its origin and whether it may receive events. |
| FrameQueueLaws.StateIsTold | Telegram/Resources/bot_webview_shell_html/page.js:858-994 | In every run the frame counts as loaded, and as one that can reload itself, as its last load and its last messages from its own origin say, since it was created. |
| FrameQueueLaws.ReloadIs | Telegram/Resources/bot_webview_shell_html/page.js:978-994 | In every run a reload asks the frame, under a new fallback, if it is loaded and said that it can reload itself, and creates it again otherwise. |
| FrameQueueLaws.FallbackIs | Telegram/Resources/bot_webview_shell_html/page.js:986-993 | A fallback that fires creates the frame again. |
| FrameQueueLaws.SaidIs | Telegram/Resources/bot_webview_shell_html/page.js:858-881 | Only the frame itself, from the origin it was started with, can say that it will reload, which disarms the fallback and lets events wait, or whether it can. |
| Splice.SplicedKeepsTags | Telegram/SourceFiles/api/api_compose_with_ai.cpp:252-289 | The tags of the three pieces together are in bounds, in order and apart, one for each tag of the pieces, with its id and over the characters it covered. |
| Splice.ApplyToSelection | Telegram/SourceFiles/api/api_compose_with_ai.cpp:252-289 | The text is what was before, the replacement and what was after, and the cursor is at the end of the replacement. |
| Splice.ApplyToAll | Telegram/SourceFiles/api/api_compose_with_ai.cpp:290-296 | Without a selection the replacement is everything, and the cursor goes to the place in it nearest to the saved one. |

## Left out

- Sha1.HashSha1: says nothing of lengths from 2^32 - 64 on, because the block loop of the source does not end for them, as `Sha1Loop.EndsIffShort` proves.
- EnvelopeVerify.VerifyUpdate: checking one signature, hashing a payload, and reading a manifest that the root key has signed are functions of their bytes, because the cryptography and the parsing of the manifest's text are not part of this model.
- MeshTheorems.PrintThenBake: assumes that reading the decimal text of each float in the file gives the same 32-bit word, because decimal conversion of floats is not part of this model; a word for which it does not is not covered.
- UpdaterCode.CollectUpdate: the tree is finite and does not change during the walk, because links are not modelled; a node for which `stat` fails is `Broken`, and which order `readdir` gives is left to the tree.
- Packer: compression, RSA, Ed25519 and key files, the legacy signature, argument parsing, console output, and the files that the first of two passes writes for signing elsewhere. Signing is a function of the signing input, and hashing of the payload a parameter.
- Envelope reader: the texts of errors; a failure is `None`.
- Mesh tools: text encodings, translation of line ends on writing, digits outside ASCII in integers and the limit on the length of an integer, and the exit codes.
- List hash: the hashes of documents and recent stickers, which hash a list of ids as `ListHash.CountHash` does.
- Request order: tables keyed by pointers are walked in the order of ids given to them, which stands for the order of the pointers.
- Message data and web pages: processing of what the answers bring; a failed web-page request, after which the source does not try again. The timer counts whole milliseconds and calls for a pass only when it has run down.
- Dialogs: that the button for more dialogs is drawn, which works only while they are blocked; how the last date of a slice is found in its messages, the peer and message of the offset, reloads of pinned dialogs, contacts and shortcuts; anything about progress after a "not modified" answer, which the source does not recover from.
- Drafts: how the request is built and what serializes, which the events choose; the counts of saves under way per history; the callbacks of a save; that every edit reaches the cloud.
- Forwarding: local copies of the messages, flags, topics, and requests to profiles for music, which are sent on their own; the overflow of a 32-bit product of count and price.
- Sticker sets: what is stored on disk, notifications, and the reload that follows an order that failed; answers change nothing but the ids that wait for them.
- Albums: what the handler of ephemeral messages does with the parts it is given, also when the text of a single media is a command to a bot; files that are still being prepared, trimming of captions, entities, flags, and what a failure does to the messages. The price of a message when an album goes out, and that messages arrive and vanish, are events.
- Invite links: the number of links in a slice and of users joined, requests under way with their lists of callbacks, links of other admins, and the updates that are published.
- Updater: copying, permissions, creating directories, deleting the folder of a bad update, and starting the program.
- Frame queue: the contents of events, parsing of messages, all that is drawn, and the other methods of the shell.
- Text splice: how the field gives its text in parts, which is not part of this model: the parts are inputs whose texts are those around the selection.
- Everything else in the program is user interface, storage, or a thin wrapper over the network.
