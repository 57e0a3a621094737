# Clarc, verified

A Dafny model of the parts of clarc that have to be right: the digests it computes, the base 64 it puts into headers,
the engine that brings a bucket in line with a local tree, and the addresses it parses. Each part is written in the
form the program has (contexts, buffers and lists that change in place, loops, one dispatcher with its workers) and
proved against a definition that does not look like it.

* **Digests.** `Sha1Standard` is the hash of FIPS 180-4, with an 80-word schedule and a loop that shifts five
  registers. `Sha1Block` and `Sha1` are the program: a circular schedule of sixteen words, renamed registers, rewritten
  round functions, a buffer for partial blocks, two counter words, and different paths for aligned and unaligned
  memory. They compute the same hash for every way of cutting a message into pieces (`Sha1Digest`), for every schedule
  of short reads from a stream, and inside the message authentication code of RFC 2104 (`Hmac`). `Md5` does the same
  for the streaming layer of RFC 1321, whose block function is a parameter. `Blocks` holds what both share: the fold of
  a block function over whole blocks, the padding, and the relation between a context and the bytes it has seen.
  `Rotations` and `ByteOrder` say in plain arithmetic what the words and bytes are, and `Sha1Known` derives a published
  hash round by round.
* **Base 64.** `Base64Standard` reads groups of 24 bits as section 3 of RFC 3548 does. `Base64` has the loops that
  write into a buffer of limited size; `Base64Alloc` the size computations in 64-bit arithmetic. `Base64Known` has
  examples from the RFC and the accepted texts written out.
* **Uploads.** `UploadRun` is a state machine in which every access to shared state (slot flags, the failed flag, the
  table, the remote store) is a step of its own. `UploadInvariant` and `UploadSteps` show what every step keeps,
  `UploadResults` what follows for whole runs, and `UploadVerdict` that no run gets stuck; `LostObject` is one run in
  full. `UploadPlainly` states the outcome with sizes, times and rows written out, and has the run of one new file.
  `Pool` is the slot table, whose scans are interrupted at every slot, and `Retry` the loop around one upload;
  `RetryPlainly` counts its attempts and seconds. Requests have arbitrary outcomes; a PUT that was not
  acknowledged may or may not have taken effect, and a metadata update that was answered need not have.
* **Rebuild and delete.** `HeadRun` is the state machine of the metadata requests, `HeadVerdict` shows that it does not
  get stuck, `Storage` the database, `RemoteList` the listing, `Rebuild` their composition. `Xml` and `Deleter` are the
  batched deletion, `XmlText` what a reader of XML 1.0 does before it looks at markup, and `Synchronise` what an upload
  followed by a deletion or by a rebuild leaves.
  `DeletionPlainly` states what is asked for and forgotten with names and numbers written out.
* **Destinations.** `Destination` parses and prints `s3://` addresses, `EndPoints` has what is special about the seven
  endpoint names, and `Addresses` says text by text what an address means.

Assumptions that the theorems about runs make visible: steps on shared variables interleave but are not torn or
reordered; local files do not change during a run and have distinct paths; a 200 answer with a well-formed entity tag
tells the MD5 of what the store now holds (`UploadRun.Honest`), a 200 answer to a HEAD request tells the object's
recorded time (`HeadRun.Honest`), and the store reads a delete request as a conforming reader of XML 1.0 does.

Seven facts about the code that the theorems state rather than hide:

* A deletion compares bare local paths with table keys that carry the destination folder. The keys of local files are
  sure to stay off its list exactly when there is no folder (`Synchronise.ListSparesLocalFiles`, for database names
  without a slash; the name comes from the command line, and `Synchronise.ListSparesExactly` holds for every name).
  With a folder the list has what has just been uploaded (`Synchronise.ListsUploaded`).
* A delete request escapes three characters and copies all others. A reader of XML takes a carriage return for a line
  feed (section 2.11 of XML 1.0) and refuses characters outside Char (section 2.2), so the request names its keys
  exactly if they contain neither (`Xml.BodyRoundTrip`). What a deletion names is stated exactly by
  `Deleter.NamedExactly`.
* So the objects of local files are sure to be spared if and only if no text that is read as one of their keys is
  anything but a local path or the database's (`Synchronise.SparesExactly`). Without a folder that is so if no path
  contains a line feed (`Synchronise.SparesWithoutFolder`), and with a folder never, if paths and folder come through
  XML unchanged and the database name has no slash (`Synchronise.FolderIsNeverSure`). `Synchronise.LocalFileNamed` is
  an input without a folder that goes wrong, and `Synchronise.LosesExactly` says for a given list what can be lost.
* Times are stored in 32 bits, by uploads and by a rebuild, although the store keeps them in full. A second run over an
  unchanged tree is idle exactly when every time fits (`UploadResults.SecondRun`).
* A file whose contents equal its row in the table only gets new metadata, and the status of that request is not looked
  at. It is recorded even if the store has lost the object; `UploadResults.SuccessMeansInSync` says exactly when, and
  `LostObject.SuccessWithoutObject` is such a run. If the update took no effect the time in the store is an old one: a
  rebuild gives back the table exactly if every update took effect (`Synchronise.UploadThenRebuild`).
* A bucket whose name contains the name of its own endpoint does not survive printing and parsing
  (`Destination.RoundTrip`, exactly those).
* An attempt that fails before any request is made leaves the HTTP status of the attempt before it, so a 307 counts
  twice and the error text is taken for an address (`Retry.StaleRedirect`; `Retry.SeenExactly` says when). If no later
  attempt gets as far as a request the loop runs on without a pause (`Retry.StuckOnRedirect`).

Where a comment and the code differ, the code is modelled: the comment of `base64_decode_alloc` says that the
length is set whenever true is returned, but when memory runs out the code returns true and does not touch it
(src/base64.c:388-392, 405-407).

## Model

| member | source | states |
|---|---|---|
| Sha1Block.RunLines | src/sha1.c:327-416 | The eighty macro lines compute the eighty rounds of section 6.1.2 of FIPS 180-4 for every block and every register state |
| Sha1Block.FiveLines | src/sha1.c:337-341 | Five lines in which the five registers change parts are five rounds, with all registers back in their own places |
| Sha1Block.Line | src/sha1.c:320-325 | One macro line, which adds to one register and rotates another, is one round of the standard read through the renaming |
| Sha1Block.M | src/sha1.c:316-318 | The macro writes word i of the 80-word schedule and keeps the sixteen most recent words in the circular array |
| Sha1Block.LoadWords | src/sha1.c:331-335 | Byte-reversed words of a little-endian machine are the first sixteen words of the schedule |
| Sha1Block.LineIsF | src/sha1.c:284-288 | F1 to F4, written with fewer operations, are Ch, Parity and Maj of section 4.1.1 of FIPS 180-4 in every round |
| Bits.ChooseRewritten | src/sha1.c:285 | The three-operation form of F1 is Ch for all words |
| Bits.MajorityRewritten | src/sha1.c:287 | The form of F3 that shares a disjunction is Maj for all words |
| Sha1Block.SwapLoad | src/sha1.c:35-40 | Swapping a word loaded on a little-endian machine gives the big-endian word of its four bytes |
| Sha1Block.StoreSwap | src/sha1.c:71-90 | Storing a swapped word gives its bytes most significant first |
| Sha1Block.RolIsRotl | src/sha1.c:314 | The macro rol is the rotation of section 2.2.2 of FIPS 180-4 at the three distances used |
| Rotations.ByOne | src/sha1.c:314 | As a number, a word rotated by one place is twice the word modulo 2^32 plus its top bit |
| Rotations.ByFive | src/sha1.c:320 | Rotated by five, it is 32 times the word modulo 2^32 plus its five top bits |
| Rotations.ByThirty | src/sha1.c:324 | Rotated by thirty, it is 2^30 times the word modulo 2^32 plus what a division by four leaves |
| Sha1.Context.constructor | src/sha1.c:55-66 | A fresh context stands for the empty message |
| Sha1.Context.ProcessBlock | src/sha1.c:294-424 | For any number of blocks the registers become the fold of the standard's compression function, and the two count words grow by the length modulo 2^64 |
| Sha1.Context.CountBytes | src/sha1.c:306-312 | The increment of the two count words carries exactly |
| Sha1.Context.ProcessBytes | src/sha1.c:210-274 | A context that stands for a message stands for the message with the new bytes behind it, whatever was waiting, however long the bytes are and wherever they lie in memory |
| Sha1.Context.JoinWaiting | src/sha1.c:215-236 | After the first part either all bytes are taken or nothing waits in the buffer |
| Sha1.Context.WholeBlocks | src/sha1.c:239-257 | Aligned and unaligned paths both leave at most one block and nothing waiting |
| Sha1.Context.Finish | src/sha1.c:94-116 | The digest of a context is the FIPS 180-4 hash of the message it stands for |
| Sha1.Context.LengthField | src/sha1.c:98-108 | The two words written at the end are the bit length modulo 2^64, most significant byte first |
| Sha1.Context.Read | src/sha1.c:77-90 | The digest bytes are those of the five registers, most significant first |
| Words.CarryAdd | src/sha1.c:306-312 | Testing the low word against the addend detects every carry between two 32-bit words |
| Words.LengthWords | src/sha1.c:101-108 | Adding the waiting bytes and shifting across the word boundary gives the 64-bit length field of section 5.1.1 |
| Blocks.FoldConcat | src/sha1.c:246-253 | Processing blocks in several calls is processing them in one |
| Blocks.StateDrain | src/sha1.c:223-232 | Processing the whole blocks that wait, and keeping the rest, does not change the message a context stands for |
| Blocks.FinishStep | src/sha1.c:97-115 | Waiting bytes, padding and length processed last give the fold over the padded message |
| Blocks.ZerosNeeded | src/sha1.c:98-110 | One block or two, chosen by the number of waiting bytes, is the padding length of section 5.1.1 |
| Sha1Digest.Buffer | src/sha1.c:191-208 | The one-call interface hashes its buffer |
| Sha1Known.HashOfAbc | src/sha1.c:276-288 | The hash of abc is the published a9993e36 4706816a ba3e2571 7850c26c 9cd0d89d, derived word by word and round by round |
| Sha1Known.BufferOfAbc | src/sha1.c:191-208 | The one-call interface returns these twenty bytes for abc at every address |
| ByteOrder.Sha1Message | src/sha1.c:98-110 | What is hashed is the message, the byte 0x80, zeros and no more of them than needed, and at the end eight bytes that hold the number of bits modulo 2^64, highest first |
| ByteOrder.BigEndianPlaces | src/sha1.c:71-75 | Byte i of a word stored highest first is the word divided by 256^(3 - i), modulo 256 |
| ByteOrder.BigEndianValue | src/sha1.c:71-75 | The four bytes of a word stored highest first give the word as a sum of powers of 256 |
| Sha1Digest.InPieces | src/sha1.c:210-274 | Any number of calls on pieces of any lengths and alignments gives the hash of their concatenation |
| Sha1Digest.Stream | src/sha1.c:118-189 | Under every schedule of short reads, status 0 means that the whole stream was read and hashed, and status 1 that reading failed or that there was no memory, in which case nothing was read |
| Sha1Digest.FillBlock | src/sha1.c:143-171 | The inner read loop loses no byte and tells a full buffer, the end of the file and an error apart |
| Streams.InputStream.Read | src/sha1.c:146 | fread: any prefix of what is left, and a short one only at the end or after an error |
| Hmac.HmacSha1 | src/hmac-sha1.c:29-78 | For every key length the result is the code of section 2 of RFC 2104, although pads enter by block calls and texts by streaming calls |
| Hmac.ReduceKey | src/hmac-sha1.c:39-52 | A key longer than a block is replaced by its hash |
| Hmac.PadsInFull | src/hmac-sha1.c:26-76 | The code with its pads written out: each byte of the zero-filled key with 0x36 before the text and with 0x5c before the inner hash; a longer key gives the code of its hash |
| Hmac.PadBlock | src/hmac-sha1.c:56-60 | Filling a block with the pad and combining the key into its front is the exclusive or of pad and zero-filled key |
| Hmac.MemXor | src/memxor.c:22-32 | The front of the destination is combined byte by byte with the source, the rest stays |
| Md5.Context.constructor | src/md5.c:312-320 | A fresh context stands for the empty message |
| Md5.Context.Append | src/md5.c:322-358 | A context that stands for a message stands for it with the bytes appended; a count that is not positive changes nothing |
| Md5.Context.AddCount | src/md5.c:333-337 | The count words hold the exact bit length modulo 2^64 after each call |
| Md5.CountBits | src/md5.c:328-337 | The three statements on the count words add eight times the bytes, carry included |
| Md5.OffsetFromCount | src/md5.c:326-377 | The low count word gives the number of waiting bytes and the length of the padding even after it has wrapped |
| Md5.Context.Finish | src/md5.c:360-381 | The digest is that of the message padded by sections 3.1 and 3.2 of RFC 1321, for any block function |
| Md5.Context.AppendPadding | src/md5.c:375-376 | The padding appended has a one bit first and ends eight bytes before a block boundary |
| ByteOrder.Md5Message | src/md5.c:373-379 | What is processed is the message, the byte 0x80, zeros and no more of them than needed, and at the end eight bytes that hold the number of bits modulo 2^64, lowest first |
| ByteOrder.LittleEndianPlaces | src/md5.c:373-374 | Byte i of a count word stored lowest first is the word divided by 256^i, modulo 256 |
| ByteOrder.LittleEndianValue | src/md5.c:373-374 | The four bytes of a count word give the word as a sum of powers of 256, lowest first |
| ByteOrder.Md5DigestPlaces | src/md5.c:380-381 | Byte i of the digest is byte i % 4 of register i / 4, counted from the lowest |
| ByteOrder.Md5Start | src/md5.c:312-320 | The initial registers are the bytes that section 3.3 of RFC 1321 lists, in order |
| Md5.OfStream | src/upload.cc:398-425 | A file is read to its first empty read; without a read error the digest is that of the whole file |
| Md5.InPieces | src/md5.c:322-381 | Any number of calls on pieces of any lengths gives the digest of their concatenation |
| Base64.RoundTrip | src/base64.c:308-382 | Decoding the encoding of any byte string succeeds and returns it |
| Base64Standard.Encoding | src/base64.h:30 | The encoding of n bytes has BASE64_LENGTH(n) characters |
| Base64Known.Examples | src/base64.c:60-98 | The three examples of section 7 of RFC 3548 |
| Base64Known.AcceptsInFull | src/base64.c:299-382 | A text is accepted exactly if its length is a multiple of four and it consists of letters, digits, plus and slash with at most two pads behind them |
| Base64.Encode | src/base64.c:60-98 | For every capacity the buffer gets as much of the encoding as fits, and a zero behind it exactly if there is room; nothing else is written |
| Base64.EncodeTurn | src/base64.c:69-94 | One turn of the loop writes the first characters of one group, as many as fit |
| Base64.Letter | src/base64.c:66-67 | The table lists the alphabet of RFC 3548 in order |
| Base64.CodeDigits | src/base64.c:71-87 | The shift and mask expressions of the encoder are the four digits of a 24-bit group |
| Base64.AcceptsExactly | src/base64.c:299-382 | The decoder accepts exactly texts of whole groups of alphabet characters, of which one or two at the very end may be pads |
| Base64.ReencodesExactly | src/base64.c:308-382 | Encoding what an accepted text decodes to gives the text back exactly if its unused low bits are zero |
| Base64.DecodedLength | src/base64.c:308-382 | An accepted text yields three bytes for each group, less one for each pad |
| Base64.DecodeInto | src/base64.c:308-382 | The verdict does not depend on the capacity; the first bytes of what would be written without a limit are stored, and their number is returned, for rejected texts too |
| Base64.DecodeTurn | src/base64.c:314-374 | One turn of the loop stores its bytes as far as there is room and goes on exactly when the group is complete |
| Base64Alloc.OverflowTest | src/base64.c:109-128 | In 64-bit arithmetic the input length exceeds the computed size exactly when the true size overflows, and otherwise the computed size is the true one |
| Base64Alloc.EncodeAlloc | src/base64.c:99-139 | Overflow, lack of memory and success are told apart as documented |
| Base64.EnoughRoom | src/base64.c:398-403 | 3 * (n / 4) + 2 bytes are enough for what any text of length n, accepted or not, decodes to |
| Base64Alloc.DecodeAlloc | src/base64.c:384-420 | The size never overflows, accepted texts are decoded completely, and lack of memory is reported as true with no buffer |
| Destination.Destination.constructor | src/destination.cc:27-33 | A destination is what its text parses to |
| Destination.Destination.Parse | src/destination.cc:47-94 | The statements of parse compute the function whose round trip is proved |
| Destination.Destination.AbsoluteString | src/destination.cc:100-118 | The repeated concatenations compute the printed form |
| Destination.RoundTrip | src/destination.cc:47-118 | For all '/'-free buckets and folders and all seven endpoints, parsing the printed form gives the destination back exactly if the bucket does not contain its endpoint's name |
| Destination.Reparse | src/destination.cc:47-118 | The same for whatever text was parsed into a valid destination |
| Addresses.FolderIsRead | src/destination.cc:56-68 | For '/'-free host and folder: s3://host/folder parses with exactly that folder, to the same location with and without a closing slash, and s3://host with an empty folder |
| Addresses.SlashInFolder | src/destination.cc:63-73 | A slash inside the folder leaves no bucket, and the destination is not valid |
| Addresses.NoAddress | src/destination.cc:48-54 | A text that does not begin with s3:// has neither bucket nor folder |
| Addresses.OwnName | src/destination.cc:75-92 | A host that ends in none of the seven endpoint names is the bucket, at s3.amazonaws.com; it is valid exactly if it is not empty |
| Addresses.AtEndPoint | src/destination.cc:75-92 | A host that ends in an endpoint name is at that endpoint, with the text before the separating character as its bucket, exactly if the name occurs nowhere earlier in it; otherwise it is a bucket of its own |
| Addresses.PrintedText | src/destination.cc:100-118 | The printed form has the folder and its closing slash, or neither |
| Addresses.OneAddress | src/destination.cc:47-94 | s3://bucket.s3.amazonaws.com/backup has the bucket bucket and the folder backup |
| Destination.HostMatches | src/destination.cc:75-87 | The first occurrence of the endpoint's name in the host is at its end exactly if the bucket does not contain the name |
| Destination.NoStraddle | src/destination.cc:78 | No occurrence begins in the bucket and ends behind it |
| Destination.OthersDoNotMatch | src/destination.cc:75-87 | No other endpoint's name ends the host, so the order of the table does not matter |
| EndPoints.NamesDiffer | src/destination.cc:16-25 | No endpoint name ends another |
| Retry.UploadFileWithRetry | src/upload.cc:270-315 | The loop as written does, on every sequence of attempt outcomes, what the recursive description of its turns does |
| Retry.Bounds | src/upload.cc:279-314 | With r attempts seen as redirects there are at most 3(r + 1) attempts and 5r + 15 seconds of sleep, and a loop that has used all of them has returned |
| Retry.UrlAfterRedirect | src/upload.cc:286-298 | A redirect address is passed exactly to the attempt after one seen as a redirect, and is what that one left in the error text |
| Retry.SeenExactly | src/upload.cc:144-150 | An attempt is seen as a redirect exactly if the last request that was really made answered 307 |
| Retry.GoesOn | src/upload.cc:293-312 | The loop goes on only after an attempt seen as a redirect or a failure worth retrying |
| Retry.ReturnsExactly | src/upload.cc:300-314 | The verdict is the curl result of the last attempt, the status that of the last request really made, and the MD5 after a 200 that of its answer's tag |
| Retry.FailsExactly | src/upload.cc:304-314 | A failure worth retrying is returned only as the third in a row |
| Retry.StaleRedirect | src/upload.cc:144-150 | An attempt that never reached the network repeats the redirect of the one before it |
| Retry.StuckOnRedirect | src/upload.cc:144-150 | From a status of 307 on, any number of attempts that never reach the network neither returns nor sleeps |
| RetryPlainly.ThreeFailures | src/upload.cc:279-314 | Three failures worth retrying, in any mixture of their kinds, make exactly three attempts at the same address and fifteen seconds of sleep |
| RetryPlainly.ThirdTimeLucky | src/upload.cc:279-314 | Two of them before an answer with status 200 make three attempts and five seconds, and the MD5 of the answer's tag is returned |
| RetryPlainly.AtOnce | src/settings.h:20-22 | All other failures, an attempt that is not sent and any answer but a redirect end the loop after one attempt, without sleep |
| RetryPlainly.Redirected | src/upload.cc:293-298 | After a redirect, however many failures came before it, the next attempt goes to the address in it, without sleep and with the count of failures at zero |
| RetryPlainly.RedirectBetween | src/upload.cc:279-314 | A redirect between two and three failures: six attempts, of which one goes to the new address, and twenty seconds |
| Retry.ExtractMd5 | src/upload.cc:99-109 | The MD5 is what thirty-two characters between double quotes say, and empty for every other tag |
| Pool.Threads.FindFreeThread | src/threads.cc:19-27 | The first free slot, or -1 exactly if all are busy |
| Pool.Threads.MarkBusy | src/threads.cc:58-60 | One slot becomes busy, the others stay |
| Pool.Threads.MarkFree | src/threads.cc:62-64 | One slot becomes free, the others stay |
| Pool.Uninterrupted | src/threads.cc:43-52 | The search modelled slot by slot finds what findFreeThread returns when nothing interrupts it |
| Pool.MarkInv | src/threads.cc:58-60 | Marking the slot found earlier, as a separate step, never takes a slot that a worker holds |
| Pool.SpawnInv | src/upload.cc:659-676 | The new worker's slot is its own |
| Pool.FreeInv | src/threads.cc:62-64 | A worker that gives its slot back disturbs neither the other workers nor a scan in progress |
| Pool.BarrierInv | src/threads.cc:29-41 | A scan that saw no busy slot, although workers moved during it, ends with all slots free |
| Pool.AtMostAllSlots | src/threads.cc:19-27 | There are never more live workers than slots |
| UploadSteps.StepInv | src/upload.cc:585-691 | Every step of dispatcher or worker keeps the invariant of slots, data, flag and progress |
| UploadSteps.TriedOk | src/upload.cc:329-347 | After a 200 with a well-formed tag the MD5 about to be recorded is that of the file and of the store |
| UploadSteps.MetaStoredOk | src/upload.cc:510-523 | A metadata update, whatever status it was answered with and whether it took effect or not, records the contents that the table had, leaves those in the store, and changes the time there only if it took effect |
| UploadResults.SlotPerWorker | src/upload.cc:659-676 | In every reachable state busy slots and workers that have not called markFree correspond one to one, but for the slot just marked, and there are at most as many workers as slots |
| UploadResults.VerdictIsComplete | src/upload.cc:683-690 | The flag is read only when every worker has called markFree, and the run succeeds exactly if every lookup and every worker did |
| UploadResults.DisagreeOnlyAtFailures | src/upload.cc:494-549 | For each key about which table and store agree at the start, counting an object without a row as agreement or as disagreement: they come to disagree about it only while its worker is between request and record or has failed; at the end only if it failed |
| UploadResults.SuccessMeansInSync | src/upload.cc:317-359 | After success exactly the files that needed it were dispatched and each is recorded with its local MD5 and its time modulo 2^32; the store has these contents exactly if contents were sent or it had them already, and so whenever table and store agreed; every other key is untouched and no new disagreement has come up |
| LostObject.SuccessWithoutObject | src/upload.cc:510-531 | One file, recorded with its contents and another time, in an empty store: thirteen steps to a success that records the file and leaves the store empty |
| UploadPlainly.LeftAlone | src/upload.cc:614-657 | At any moment of any run a file that cannot be inspected, has 5315022020 bytes or more, or whose positive time the table has under folder/path has had no worker, and what table and store say of files without a worker is what they said at the start |
| UploadPlainly.AllOthersDispatched | src/upload.cc:614-676 | After a success every other file has had a worker |
| UploadPlainly.DispatchedAreRecorded | src/upload.cc:317-359 | And each of these has a row with its MD5 and its time modulo 2^32; the store has its contents and its time if it is a link, or the table had no row for it, or one without a time or with another MD5; otherwise the store has the contents it had |
| UploadPlainly.NothingAfterFailure | src/upload.cc:600-603 | Once anything has failed no further file is taken up: only the one at hand can still get a worker |
| UploadPlainly.NewFileIsStored | src/upload.cc:585-691 | One file of five bytes that neither table nor store knows: in thirteen steps its object is stored and its row written |
| UploadResults.DryRunWritesNothing | src/upload.cc:516-536 | A dry run changes neither table nor store |
| UploadResults.SecondRun | src/upload.cc:600-657 | A run over an unchanged tree after a successful one starts no worker and changes nothing if all times are in 1..2^32-1, and a successful one is idle only then |
| UploadResults.RowsStayFit | src/upload.cc:339 | Uploads keep all stored times below 2^32, as the second run assumes of the table |
| UploadVerdict.CanAlwaysFinish | src/upload.cc:585-691 | Every run so far has a continuation to a verdict, and to success unless something has failed, given one thread |
| HeadRun.ResolvesAll | src/remoteListOfFiles.cc:551-658 | Over every interleaving each element of mtimes is zero or what its own worker read, modulo 2^32; success means that all are what the metadata say modulo 2^32, and failure that some worker failed |
| HeadVerdict.CanAlwaysFinish | src/remoteListOfFiles.cc:611-658 | Every metadata run so far has a continuation to a verdict, and to success unless a worker has failed |
| HeadVerdict.HeadBounds | src/remoteListOfFiles.cc:447-473 | With r redirects a worker makes at most 3(r + 1) attempts and sleeps at most 5r + 15 seconds, and has then ended unless it has used fewer |
| HeadVerdict.AtMostSixty | src/remoteListOfFiles.cc:619 | No more than sixty metadata workers are ever at work |
| HeadVerdict.NothingAfterFailure | src/remoteListOfFiles.cc:551-555 | Once a worker has failed at most one more is started, and workers that have not begun make no request |
| RetryPlainly.HeadRedirected | src/remoteListOfFiles.cc:577-580 | After a 307 the worker tries the address in that answer, and its attempts are counted afresh |
| RetryPlainly.HeadTimeouts | src/remoteListOfFiles.cc:447-473 | A first and a second failure worth retrying are tried again at the same address, after no and after five seconds; after the third and fifteen seconds in all the worker fails |
| RetryPlainly.HeadAtOnce | src/remoteListOfFiles.cc:569-590 | Every other answer settles the worker at once: 200 with the time modulo 2^32, anything else as a failure |
| HeadRun.StepInv | src/remoteListOfFiles.cc:551-658 | Every step of dispatcher or worker keeps slots, elements, flag and progress in order |
| RemoteList.RemoteListOfFiles.Add | src/remoteListOfFiles.cc:83-95 | The list grows by one element, keeps the others, and always has room for the next |
| Storage.FileListStorage.Lookup | src/fileListStorage.cc:72-108 | The row of a key, or an empty MD5 and time zero; a statement that fails says so and gives the same |
| Storage.FileListStorage.Store | src/fileListStorage.cc:110-140 | REPLACE: the key has the new row, with the first 32 characters of the MD5 or the whole of a shorter one, all others keep theirs; a statement that fails says so and changes nothing |
| Storage.FileListStorage.Truncate | src/fileListStorage.cc:142-157 | The table is emptied, or left alone inside an open transaction |
| Storage.FileListStorage.StoreChunk | src/fileListStorage.cc:184-225 | All rows of the window are inserted and committed, or those before the first clash are and nothing is committed |
| Storage.FileListStorage.StoreRemoteListOfFiles | src/fileListStorage.cc:159-182 | The windows tile the list: the result is that of inserting it as a whole, and after a clash the complete windows before it are committed |
| Storage.FileListStorage.StoreChunks | src/fileListStorage.cc:171-181 | The loop over the windows for any number of them |
| Storage.InsertedRows | src/fileListStorage.cc:199-217 | A list without clashes adds exactly one row for each entry, with its MD5 and time |
| Storage.AcceptedMeans | src/fileListStorage.cc:211-213 | Inserting stops exactly at the first path that is in the table or earlier in the list |
| Storage.WholeHundreds | src/fileListStorage.cc:159-182 | After a clash at entry n the table on disk has what it had and the entries before the last multiple of one hundred, and no others |
| Storage.AcceptedFrom | src/fileListStorage.cc:171-181 | Inserting a list in two parts is inserting it whole |
| Storage.FileListStorage.CalculateListOfFilesToDelete | src/fileListStorage.cc:228-292 | Exactly the keys that are no local path, each once; nothing at all if a path occurs twice or an earlier call has failed |
| Storage.FileListStorage.StoreDeletedBatch | src/fileListStorage.cc:294-330 | Exactly the keys of the batch are removed, or nothing inside an open transaction |
| Rebuild.RebuildDatabase | src/main.cc:41-70 | A rebuild succeeds exactly if listing and metadata requests did and, unless dry, no key is listed twice; then the table has one row for each listed object with its MD5 and recorded time modulo 2^32, and no other; all its times fit in 32 bits |
| Rebuild.RebuildsStore | src/main.cc:41-70 | A table that mirrors a complete listing is the one table a rebuild makes of the store |
| Rebuild.ResolveMtimes | src/remoteListOfFiles.cc:611-658 | The times left in the list by a successful run are those of the metadata modulo 2^32 |
| Xml.XmlEscape | src/deleter.cc:111-144 | The loop replaces exactly the three special characters, in every string, although for the empty one it runs on behind the terminating zero |
| Xml.EscapeRoundTrip | src/deleter.cc:111-144 | Resolving the references of an escaped key gives the key back, and it contains no markup |
| Xml.TextRoundTrip | src/deleter.cc:111-144 | A reader of XML finds an escaped key with its line ends normalised, or refuses it for an illegal character; it finds the key itself exactly if there is no carriage return and no illegal character |
| XmlText.UnchangedExactly | src/deleter.cc:133-135 | Characters copied as they are survive the normalisation of line ends exactly if there is no carriage return |
| Xml.BodyRoundTrip | src/deleter.cc:160-173 | A reader of the request body finds exactly the keys of the batch, in order, if and only if no key contains a carriage return or a character outside Char |
| Xml.BodyReads | src/deleter.cc:160-173 | For every batch: the reader finds nothing if some key has an illegal character, and otherwise the keys with their line ends normalised |
| Xml.CarriageReturnIsLost | src/deleter.cc:133-135 | The body for the key a, carriage return, b names a, line feed, b |
| DeletionPlainly.LineEnds | src/deleter.cc:133-135 | A reader finds line feeds for a carriage return alone and for one with a line feed behind it |
| DeletionPlainly.TwoKeys | src/deleter.cc:147-189 | The request for two keys with all three special characters, in full |
| Deleter.Deleter.BuildBody | src/deleter.cc:150-173 | The concatenations build the body that the round trip is about |
| Deleter.Deleter.DeleteBatch | src/deleter.cc:147-189 | One request with the body of the batch, or none in a dry run |
| Deleter.Deleter.SendBatch | src/deleter.cc:217-229 | The keys of a batch leave the table exactly if its request was answered 200 |
| Deleter.Deleter.PerformDeletion | src/deleter.cc:193-263 | The requests carry the consecutive batches of 999 deletable keys in list order; if all are answered 200 all these keys are gone from the table, and if one is not, exactly those of the batches before it, and nothing more is requested |
| Deleter.DeletableMeans | src/deleter.cc:206-211 | The database and its journal are never deleted, everything else listed is |
| Deleter.AllDeletable | src/deleter.cc:206-211 | A list without the database and its journal is deleted whole and in its order |
| DeletionPlainly.DatabaseSpared | src/deleter.cc:193-263 | However a deletion ends, the database and its journal keep their rows; no request names either of them if the listed paths come through XML unchanged |
| DeletionPlainly.RowsAfter | src/deleter.cc:193-263 | The rows that are gone are those of all keys, or of the first 999 keys for each request before the one refused |
| DeletionPlainly.RequestsInOrder | src/deleter.cc:191-252 | Request k carries the keys from number 999k on, 999 or all that are left; every request but a refused last one was answered 200, and if none was refused no keys are left |
| DeletionPlainly.ListedPlainly | src/main.cc:461-484 | With the local files listed, exactly the keys of the table go that are no file's path and not the database or its journal |
| Deleter.BatchNames | src/deleter.cc:160-173 | A batch names its keys with their line ends normalised and nothing else |
| Deleter.NamedExactly | src/deleter.cc:193-263 | Whatever way a deletion ends, its requests name exactly the normal forms of the keys in those batches posted that have no illegal character |
| Deleter.NamedEver | src/deleter.cc:193-263 | A key can be named by some deletion of a list exactly if one of its batches names it |
| Deleter.NamesOnlyKeys | src/deleter.cc:193-263 | Every key that a batch may name is a key of the list if all keys of the list come through XML unchanged |
| Synchronise.OnListExactly | src/deleter.cc:206-211 | The list of a deletion has exactly the keys in the table that are neither a local path nor the database |
| Synchronise.ListSparesLocalFiles | src/fileListStorage.cc:247-271 | The keys of local files are sure to stay off the list, whatever the table holds, exactly if there is no destination folder or no local file |
| Synchronise.ListSparesExactly | src/fileListStorage.cc:247-271 | For every database name: no table puts a local file's key on the list exactly if every such key is itself a bare local path or the database's |
| Synchronise.SparesExactly | src/main.cc:461-484 | Whatever the table holds and however far it comes, a deletion is sure to name no local file if and only if every text that a reader of XML takes for the key of one is a bare local path or the database's |
| Synchronise.SparesWithoutFolder | src/main.cc:461-484 | It is sure without a folder if no local path contains a line feed |
| Synchronise.FolderIsNeverSure | src/main.cc:461-484 | It is never sure with a folder, for paths and a folder that come through XML unchanged and a database name without a slash |
| Synchronise.ListsUploaded | src/main.cc:461-484 | After any successful upload the key of a local file that was looked up is on the list exactly if it is neither a bare local path nor the database's |
| Synchronise.LocalFileNamed | src/deleter.cc:133-135 | Two keys that differ in a line end, of which one is a local file: the deletion of the other names the local one |
| Synchronise.UploadThenDelete | src/main.cc:461-484 | Without a folder, after a successful upload and a deletion stopped at any batch, acknowledged or not, every local file keeps its row, and its object unless a batch names it, which takes a key that XML changes; table and store disagree only about objects dropped whose keys are still in the table; after a complete deletion the table has no keys but local paths and the database's |
| Synchronise.LosesExactly | src/deleter.cc:193-263 | An object of the store can be lost in a deletion of a given list exactly if a batch of it names the key |
| Synchronise.RebuildGivesBack | src/upload.cc:476-523 | After a successful upload a rebuild gives back the row of a dispatched file exactly if its contents were sent, or the store had them and the metadata update took effect or was not needed; every other key as before |
| Synchronise.UploadThenRebuild | src/upload.cc:476-523 | From a table that a rebuild of the store gives, with times that fit, a successful upload leads to such a table if and only if every metadata update took effect |

## Left out

- Md5.Context.Append: requires that the waiting bytes and the count together fit in an int, as the addition in src/md5.c:341 does.
- Md5.CountBits: the shift of nbytes by three in src/md5.c:328 is done in int and overflows from 2^28 on; the model takes it modulo 2^32, as compilers do.
- Md5.InPieces: requires the same of every piece.
- Md5.Context.Finish: the block function of MD5 is a parameter; its 64 steps transcribe section 3.4 of RFC 1321.
- Sha1.Context.CountBytes: the two count words are integers below 2^32 with explicit wrap-around, and the union of disjoint bit fields is written as a sum.
- Sha1Block.RunLines: the eighty macro lines are sixteen repetitions of their five-line pattern, with the round number choosing function and constant.
- Sha1Block.SwapLoad: the machine is little-endian; on a big-endian one the swaps are compiled away.
- Base64Alloc.OverflowTest: size_t has 64 bits.
- Base64.AcceptsExactly: the inverse table of 256 entries is written as ranges of characters.
- Destination.Destination.Parse: when the host is an endpoint name and nothing else, the source writes a zero before its copy of the string; the text itself does not change and that is all the model shows.
- Xml.XmlEscape: what lies in memory behind an empty key is arbitrary, but there is a zero somewhere for the loop to stop at.
- Xml.BodyReads: keys are sequences of characters; keys that are no valid UTF-8 are not modelled.
- Storage.FileListStorage.Store: the memory behind a short MD5 is readable up to the 32 bytes that are bound.
- Storage.FileListStorage.StoreRemoteListOfFiles: the list has at most 2147483600 entries, beyond which the chunk arithmetic in int overflows.
- Storage.FileListStorage.StoreChunk: inserts and transactions fail only for the reasons the model contains, a key that exists and a transaction that is open.
- HeadRun.ResolvesAll: the text of the header is a number below 2^63; atoll on other text, and on larger numbers, is not modelled.
- Deleter.Deleter.PerformDeletion: errors for single keys inside an answer with status 200 are not read by the source either, so a deleted row does not prove that the object is gone.
- Deleter.Deleter.SendBatch: requires that no transaction is open, in which case storeDeletedBatch succeeds; the source does not look at its result.
- The list of files to delete being NULL: src/main.cc:464-481 uses it without a check; the model ends with the error.
- UploadResults.DisagreeOnlyAtFailures: an unacknowledged PUT takes effect before its failing answer is seen or not at all, not later.
- UploadResults.VerdictIsComplete: pthread_create failing ends the program, in the model the state Aborted, about which nothing is claimed.
- Synchronise.UploadThenDelete: the store drops no object that no request names.
- Synchronise.ListSparesLocalFiles: requires a database name without a slash, as the default has; ListSparesExactly is the statement for every name.
- Rebuild.RebuildsStore: the listing is complete, and the store does not change during a rebuild.
- UploadVerdict.CanAlwaysFinish: a continuation exists; that the scheduler takes it is not modelled.
- A local file that can be inspected but not read makes the comparison of MD5s crash in src/upload.cc:511-512; in the model every such file is readable.
- Modification times before 1970 are not modelled.
- downloadList and the parsing of listings: depends on the server and on libxml; the listing is an input of the rebuild.
- Authentication, signing, bucket creation, URL escaping, headers and curl: replaced by arbitrary outcomes of requests.
- uploadDatabase: one more upload through the same retry loop, whose result does not change the exit status.
- Exclusion patterns, directory recursion and file metadata other than size, time and link flag: the list of files is an input.
- Command line, logging, progress display, content types, memory management and buffer sizes.
- The strength of the digests: only equality with their standards is proved.
