# Visibility search, network byte order, packet checksum and servo command: a Dafny model

This project models five parts of the repository. It proves what each part computes.

- **View** (`noise/Noise/View.py`). A view is one viewing region: an origin, a window polygon, and a target once resolved. It holds a working list of candidate regions. `search` does these steps in order:
  1. It discovers the candidate polygons of the scene.
  2. It drains a FIFO of subviews through `__refine`.
  3. `__refine` sweeps occluded candidates out of the list. The view is then exhausted (no candidates), resolved (exactly one), or split in two along the nearest dividing edge.

  Reflected and refracted child views carry a `parent` link. All geometry is unseen numpy code, so it is held as uninterpreted collaborator functions (`Regions.Geometry`). Points, polygons and window vertices are abstract types, and distances are reals. The list logic is stated as functions in module `Candidates`. The class `Views.View` runs the same loops in place and is proved equal to those functions.
- **Receiver** (`scene/Receiver.py`). The receiver seeds one view per cube face and runs two rounds. Each round drains the queue through `View.search`, then classifies every resolved view by its target's material: a source adds a copy to the sources, and a reflective or refractive target queues child views. The model is generic in the view type; what the receiver asks of a view is bundled in `Receivers.Optics`.
- **Network byte-order types** (`NetIP/netip/ip_types.hh`):
  - `ns16_t` and `ns32_t` are big-endian values kept as bytes. Byte order is network order (RFC 791, Appendix B), and `++`/`+=` wrap modulo 2^32.
  - `Chain<T>` is an intrusive list with no repeated link. It is modelled as the sequence of its links plus its two ends.
  - `Check16` is the ones-complement accumulator of the Internet checksum (section 4.1 of RFC 1071).
  - `BufferIterator` is a read pointer into a byte array.
- **Packet buffer** (`NetIP/netip/ip_buffer.hh`, `NetIP/ip_buffer.cpp`):
  - `IP_Buffer` is a fixed-capacity byte array with all-or-nothing `append`.
  - Its iterator reads 16- and 32-bit fields.
  - `check` feeds a byte range into a `Check16` as 16-bit words, padding an odd last byte with a zero low byte.
- **Servo command** (`arduino/Hello/pinservo.cpp`). `PinServo` keeps a pin, pulse limits, an angle-or-microseconds mode and a value. `command` range-checks the sub-command's arguments before calling the setters. The Arduino `Servo` object is represented by what it was attached with and the last value written to it.

The model follows the code where its behaviour differs from what it evidently intends. The "## Findings" section lists each such place, together with a corrected member.

**Behaviour of the code worth knowing**
- **A source view is propagated too.** `scene/Receiver.py:36-43` tests `is_source` apart from the reflect/refract branch, so a reflective source adds a copy to the sources and also queues its reflection.
- **Refraction queues a pair, which then raises.** `scene/Receiver.py:42-43` appends the pair returned by `refract_view` as one queue entry, and the next round calls `search` on it (Findings, row 3).
- **No dividing edge.** When no candidate offers a dividing edge, `__refine` calls `split(None, None)` on both halves (`noise/Noise/View.py:139-158`).
  - The model does the same. `Candidates.NoEdgeSplitsWithNone` states that both calls then get `None` vertices.
  - Nothing then guarantees that the candidate list shrinks, which is one reason `View.Search` carries a fuel bound.

## Model

| member | source | states |
|---|---|---|
| Candidates.Candidate | noise/Noise/View.py:28-48 | A polygon yields a candidate exactly when it passes the four tests; the candidate keeps the view's origin and has a target. |
| Candidates.CandidatesKeepExactly | noise/Noise/View.py:24-48 | The candidate list keeps, in scene order, exactly the polygons that pass all four tests: not `ill_only`, depth non-zero, not behind a reflective plane, and a non-empty `project_and_crop`. Each kept polygon becomes the region (origin, window polygon, projected target). |
| Candidates.FirstConflict | noise/Noise/View.py:69-98 | The partner the inner loop stops at: the first later candidate whose comparison is not "keep", with every candidate before it compared as "keep"; `None` exactly when all compare as "keep". |
| Candidates.PairVerdict | noise/Noise/View.py:73-98 | The comparison of a pair keeps both exactly when neither is interior and farther than the other and they are not mutually interior; it removes `v1` exactly when `v1` is interior to `v2` and farther; otherwise `v2` is interior to `v1`. |
| Candidates.SweepStep | noise/Noise/View.py:63-103 | One pass of the outer loop moves the index by at most one, never lengthens the list, and leaves the candidates before the index untouched. |
| Candidates.SweepFrom | noise/Noise/View.py:61-103 | The sweep from index `i` never lengthens the list and keeps the first `i` candidates as they were. |
| Candidates.Sweep | noise/Noise/View.py:61-63 | A whole sweep never lengthens the list, and a list of at most one candidate is returned unchanged. |
| Candidates.SweepStepDeletesByRule | noise/Noise/View.py:63-103 | One pass of the outer loop deletes only by the three rules. `v1` interior and farther removes `v1` and keeps the index. `v2` interior and farther, or mutual interiors, removes `v2`. With no conflict the index advances. |
| Candidates.SweepFromIsSubsequence | noise/Noise/View.py:61-103 | The sweep only deletes, so its result is an order-preserving sublist of its input. |
| Candidates.SweepFromSettles | noise/Noise/View.py:61-103 | At exit no surviving pair `i < j` meets any of the three deletion conditions. |
| Candidates.SweepFromKeepsSettledList | noise/Noise/View.py:61-103 | A list with no conflicting pair passes through the sweep unchanged. |
| Candidates.SweepFromKeepsOne | noise/Noise/View.py:63 | The sweep never empties a non-empty list: it deletes only while two candidates remain. |
| Candidates.SweepIsSettledSublist | noise/Noise/View.py:61-103 | A whole sweep yields an order-preserving sublist with no deletable pair left. |
| Candidates.SweepIdempotent | noise/Noise/View.py:61-103 | A second sweep changes nothing, and a non-empty list stays non-empty. |
| Candidates.BestEdge | noise/Noise/View.py:127-137 | A chosen edge is the edge offered by one of the candidates. |
| Candidates.BestEdgeIsNearest | noise/Noise/View.py:122-137 | There is a chosen edge exactly when some candidate offers an edge. It is the edge of a candidate whose `(d1, d2)` is strictly smaller (lexicographically) than every earlier candidate's and not beaten by any later one: the minimum, with ties kept by the earliest candidate. |
| Candidates.NoEdgeSplitsWithNone | noise/Noise/View.py:139-158 | When no candidate offers an edge, both `split` calls get `None` for both vertices. |
| Views.NearestEdge | noise/Noise/View.py:122-137 | The selection loop ends with the vertices of the chosen edge, or `None` when there is none. |
| Views.View.constructor | noise/Noise/View.py:9-16 | A new view has region (origin, window, no target), no parent, and the given candidate list. |
| Views.View.Copy | noise/Noise/View.py:18-22 | The copy is a new object with the same region, target, parent and candidate list. |
| Views.View.SearchPolygons | noise/Noise/View.py:24-48 | The candidate list becomes the scene filtered and mapped by `Candidate`, in scene order; region and parent are unchanged. |
| Views.View.RefineVisibles | noise/Noise/View.py:50-59 | The list becomes each candidate's `crop_visible` result, in order, empty crops dropped. |
| Views.View.RemoveOccluded | noise/Noise/View.py:61-103 | The in-place sweep leaves exactly the sweep function's result. Lists of length at most 1 are untouched, and region and parent are unchanged. |
| Views.View.SweepPass | noise/Noise/View.py:64-103 | One pass of the outer loop in place: the inner loop stops at the first partner that calls for a deletion, and the list and index afterwards are exactly those of `Candidates.SweepStep`. |
| Views.View.Refine | noise/Noise/View.py:105-160 | The three outcomes: (1) no candidates gives `([], [])` and nothing changes; (2) exactly one candidate after the sweep resolves `self` to that candidate's region and clears its list; (3) otherwise there are exactly two distinct subviews, `self` split along `(v1, v2)` and a new copy split along `(v2, v1)`, each list re-cropped from the swept list, nothing resolved, and the parent kept. |
| Views.View.Search | noise/Noise/View.py:162-176 | Every returned resolved view came from the one-candidate branch, so its list is `None`. Each is `self` or a new view with `self`'s parent, and none is returned twice. |
| Views.View.ReflectView | noise/Noise/View.py:178-185 | The child is new. Its origin is the mirror image of the origin across the target's plane, its window is the target, its parent is the view, and it has no list. |
| Views.View.RefractView | noise/Noise/View.py:187-204 | Two distinct new children, both with the view as parent. The window is the target, reversed when the origin lies in front of it. The straight-through child keeps the origin; the other has its origin behind the window. |
| Receivers.Drain | scene/Receiver.py:22-24 | Draining the queue through `search` succeeds exactly when every queued entry is a single view (`search` on a pair raises). |
| Receivers.Round | scene/Receiver.py:19-43 | One round finishes exactly when every queued entry is a single view; its next queue and its sources are no longer than the resolved views, and an empty queue gives an empty round. |
| Receivers.Rounds | scene/Receiver.py:19-43 | An empty queue stays empty and finds no source, whatever the round count; `n` rounds finish only when the first `n - 1` do. |
| Receivers.ChildrenByMaterial | scene/Receiver.py:40-43 | The next queue holds, in order, exactly one entry per reflective or refractive resolved view: the reflection for a reflective one, the refracted pair as ONE entry otherwise. Passive views add nothing. |
| Receivers.SourcesAreCopies | scene/Receiver.py:36-38 | The sources are, in order, one copy of each resolved view whose material is a source, whatever else its material does. |
| Receivers.RoundsStayRaised | scene/Receiver.py:19-24 | Once a round has raised, no larger round count finishes. |
| Receivers.RefractedPairRaises | scene/Receiver.py:22-24 | As written, when a round resolves a refractive view that is not reflective, the following round raises on the queued pair. |
| Receivers.SearchRaisesOnRefraction | scene/Receiver.py:16-43 | So the two rounds of `search` raise whenever the first round resolves such a view. |
| Receivers.SplitPairs | scene/Receiver.py:42-43 | The queue with every pair replaced by its two views holds only single views. |
| Receivers.DrainAgrees | scene/Receiver.py:22-24 | On a queue of single views the corrected drain and the drain as written agree. |
| Receivers.FixedChildrenSplitPairs | scene/Receiver.py:40-43 | The corrected children are the children as written with each pair queued view by view. |
| Receivers.FixedQueuesBothRefractedViews | scene/Receiver.py:42-43 | In the corrected round both views of a refracted pair reach the next queue. |
| Receivers.FixedChildrenAreSingle | scene/Receiver.py:40-43 | A corrected round queues only single views. |
| Receivers.NoPairSplitsToItself | scene/Receiver.py:40-43 | Without refractive-only resolved views no pair is queued. |
| Receivers.RoundsAgreeWithoutRefraction | scene/Receiver.py:16-43 | When the first round resolves no refractive-only view, the two rounds as written finish. They find the same sources as the corrected rounds and leave the same queue, up to splitting pairs. |
| Receivers.Receiver.constructor | scene/Receiver.py:7-14 | Exactly one single-view entry per cube face, in face order, each with the receiver's origin. |
| Receivers.Receiver.DrainViews | scene/Receiver.py:22-24 | Entries are popped from the front, and the result is the drain of the old queue. On success the queue is empty. |
| Receivers.Receiver.Classify | scene/Receiver.py:26-43 | `resolved` is consumed front to back. The queue gains exactly the children by material, and the sources found are exactly the copies of the source views. |
| Receivers.Receiver.Search | scene/Receiver.py:16-43 | Exactly two rounds. The result is true exactly when both rounds finish. The queue is then the children of round two; the sources stay local. |
| Receivers.Receiver.DrainAllViews | scene/Receiver.py:22-24 | Corrected drain: a pair is searched view by view, and the queue ends empty. |
| Receivers.Receiver.ClassifyAll | scene/Receiver.py:26-43 | Corrected classification: both refracted views are queued as single views. |
| Receivers.Receiver.SearchForSources | scene/Receiver.py:16-43 | Corrected search: two corrected rounds; the queue and the returned sources are those of the corrected rounds, and the queue holds only single views. |
| NetTypes.ToU16Bytes | NetIP/netip/ip_types.hh:88-90 | Reading an `ns16_t` is big-endian: `byte[0]` is the high byte and `byte[1]` the low byte. |
| NetTypes.FromU16 | NetIP/netip/ip_types.hh:82-86 | Assigning a u16 stores its high byte in `byte[0]` and its low byte in `byte[1]`. |
| NetTypes.NS16RoundTrip | NetIP/netip/ip_types.hh:82-103 | Assigning then reading gives the value back (`convert(i) == i`); reading then assigning gives the bytes back. |
| NetTypes.At | NetIP/netip/ip_types.hh:75-80 | `operator[]` masks the index with 1: even indices give `byte[0]`, odd ones `byte[1]`. |
| NetTypes.WithAt | NetIP/netip/ip_types.hh:75-77 | Writing through `operator[]` sets the masked byte and keeps the other one. |
| NetTypes.SameBytes | NetIP/netip/ip_types.hh:92-94 | Comparing two `ns16_t` byte-wise agrees with equality of their values. |
| NetTypes.MatchesU16 | NetIP/netip/ip_types.hh:95-97 | Comparing with a u16 holds exactly when the value read equals it. |
| NetTypes.ShiftedBytes | NetIP/netip/ip_types.hh:176-185 | As written, `ns32_t = i` stores `[0, 0, 0, i & 0xFF]`: the left shifts clear every byte but the last. |
| NetTypes.ShiftedAssignLosesHighBytes | NetIP/netip/ip_types.hh:176-185 | As written, assigning 0x01020304 reads back as 4, so the round trip fails. |
| NetTypes.BigEndianBytes | NetIP/netip/ip_types.hh:176-185 | Corrected assignment: four bytes, most significant first. |
| NetTypes.BigEndianRoundTrip | NetIP/netip/ip_types.hh:176-189 | Corrected assignment then `operator u32_t` gives the value back, and reading then assigning gives the bytes back. |
| NetTypes.BigEndianInjective | NetIP/netip/ip_types.hh:213-215 | Two `ns32_t` are equal as bytes exactly when their values are equal. |
| NetTypes.Incremented | NetIP/netip/ip_types.hh:191-198 | The increment carries from `byte[3]` towards `byte[0]` and gives `(v + 1) mod 2^32`. |
| NetTypes.AddBytes | NetIP/netip/ip_types.hh:200-211 | `+=` leaves four bytes; their value is stated by `NetTypes.AddBytesIsModularSum`. |
| NetTypes.AddBytesIsModularSum | NetIP/netip/ip_types.hh:200-211 | The byte-wise addition with carries gives `(a + b) mod 2^32`, the carry out of `byte[0]` lost. |
| NetTypes.LessBytes | NetIP/netip/ip_types.hh:217-222 | The byte-lexicographic `<` is unsigned `<` on the big-endian values. |
| NetTypes.HalvesMakeTheWhole | NetIP/netip/ip_types.hh:151-163 | The value of an `ns32_t` is `hi()` times 0x10000 plus `lo()`. |
| NetTypes.BufferIterator.constructor | NetIP/netip/ip_types.hh:35-40 | A new iterator points at the start, with its end at `length`. |
| NetTypes.BufferIterator.Remaining | NetIP/netip/ip_types.hh:46-48 | `end - ptr`; past the end it is that difference cast to u16. |
| NetTypes.BufferIterator.Next | NetIP/netip/ip_types.hh:54-57 | The pointer moves one byte. |
| NetTypes.BufferIterator.Advance | NetIP/netip/ip_types.hh:59-62 | The pointer moves `count` bytes. |
| NetTypes.BufferIterator.ReadNS16 | NetIP/netip/ip_buffer.hh:79-83 | `ns16` copies the next two bytes, in order, and steps over them. |
| NetTypes.NS32.constructor | NetIP/netip/ip_types.hh:165-167 | A new `ns32_t` holds four zero bytes. |
| NetTypes.NS32.FromInt | NetIP/netip/ip_types.hh:169-171 | `ns32_t (int)` goes through the shifting assignment and stores the bytes it does. |
| NetTypes.NS32.AssignAsWritten | NetIP/netip/ip_types.hh:176-185 | The assignment as written stores the shifted bytes. |
| NetTypes.NS32.Assign | NetIP/netip/ip_types.hh:176-185 | The corrected assignment stores the big-endian bytes, so the value reads back. |
| NetTypes.NS32.AssignFrom | NetIP/netip/ip_types.hh:139-142 | Assigning from an iterator copies the next four bytes. |
| NetTypes.NS32.At | NetIP/netip/ip_types.hh:144-149 | `operator[]` masks the index with 3. |
| NetTypes.NS32.SetAt | NetIP/netip/ip_types.hh:144-146 | Writing through `operator[]` replaces only the masked byte. |
| NetTypes.NS32.Increment | NetIP/netip/ip_types.hh:191-198 | Prefix `++` in place: the bytes become the incremented bytes, and the value becomes `(v + 1) mod 2^32`. |
| NetTypes.NS32.AddAssign | NetIP/netip/ip_types.hh:200-211 | `+=` in place: the bytes become the byte-wise sum, the value becomes `(a + b) mod 2^32`, and `rhs` is not written. |
| NetTypes.NS32.Equals | NetIP/netip/ip_types.hh:213-215 | `==` holds exactly when the values are equal. |
| NetTypes.NS32.Less | NetIP/netip/ip_types.hh:217-222 | `<` holds exactly when the value is less. |
| NetChain.Prepended | NetIP/netip/ip_types.hh:283-292 | A link already in the chain leaves it as it was. A fresh link is put in front of the others, which keep their order; the links stay distinct. |
| NetChain.Appended | NetIP/netip/ip_types.hh:294-304 | A link already in the chain leaves it as it was. A fresh link is put behind the others, which keep their order, and is also first on an empty chain; the links stay distinct. |
| NetChain.Removed | NetIP/netip/ip_types.hh:306-308 | Only links of the chain remain; a link not in the chain leaves it as it was; otherwise one link fewer, and in a chain without repeats the removed link is gone and every other link stays. |
| NetChain.RemovedUnhooks | NetIP/netip/ip_types.hh:306-308 | The link is unhooked where it sits: the links before it and the links after it are kept, in order. |
| NetChain.Popped | NetIP/netip/ip_types.hh:310-317 | The first link is returned and leaves the chain; an empty chain gives null. |
| NetChain.StackOrder | NetIP/netip/ip_types.hh:319-329 | Pushing a fresh link as on a stack and popping gives that link back and the chain as it was. |
| NetChain.QueueOrder | NetIP/netip/ip_types.hh:319-329 | Pushing as on a queue only adds at the back: a non-empty chain still pops its old first link. |
| NetChain.QueuePopsInPushOrder | NetIP/netip/ip_types.hh:319-329 | A run of queue pushes of distinct links leaves them in push order. |
| NetChain.Chain.constructor | NetIP/netip/ip_types.hh:331-336 | A new chain is empty, both ends null. |
| NetChain.Chain.InChain | NetIP/netip/ip_types.hh:239 | Membership of the link in the chain. |
| NetChain.Chain.Prepend | NetIP/netip/ip_types.hh:283-292 | The links become `Prepended`, and both ends stay consistent. |
| NetChain.Chain.Append | NetIP/netip/ip_types.hh:294-304 | The links become `Appended`, and both ends stay consistent. |
| NetChain.Chain.Remove | NetIP/netip/ip_types.hh:306-308 | The links become `Removed`, and both ends stay consistent. |
| NetChain.Chain.First | NetIP/netip/ip_types.hh:310-317 | Returns the first link. The chain is unchanged unless removal is asked, and then it loses that link. |
| NetChain.Chain.Push | NetIP/netip/ip_types.hh:319-325 | At the back for FIFO, at the front otherwise. |
| NetChain.Chain.Pop | NetIP/netip/ip_types.hh:327-329 | `chain_first (true)`: the result and new links are `Popped`. |
| NetCheck.Fold | NetIP/netip/ip_types.hh:368-370 | The fold ends with the ones-complement form of the sum modulo 0xFFFF: 0 only for 0, and 0xFFFF for other multiples of 0xFFFF. |
| NetCheck.FoldStepKeepsResidue | NetIP/netip/ip_types.hh:369 | One fold step keeps the sum modulo 0xFFFF, keeps it non-zero, and shrinks it. |
| NetCheck.FoldIsFolded | NetIP/netip/ip_types.hh:366-373 | A folded sum folds to itself, so a second `checksum` returns the same result. |
| NetCheck.Check16.constructor | NetIP/netip/ip_types.hh:347-351 | A new accumulator is 0. |
| NetCheck.Check16.Clear | NetIP/netip/ip_types.hh:357-359 | `clear` sets the accumulator to 0. |
| NetCheck.Check16.Add | NetIP/netip/ip_types.hh:361-364 | `+=` adds the word, wrapping at 32 bits. |
| NetCheck.Check16.Checksum | NetIP/netip/ip_types.hh:366-373 | The accumulator is left folded, and the result is its 16-bit complement. |
| NetBuffer.Words | NetIP/ip_buffer.cpp:39-43 | Word `k` of a run is the big-endian word at byte `from + 2k`. |
| NetBuffer.CheckedWordsAsWritten | NetIP/ip_buffer.cpp:26-55 | As written: nothing is fed when a guard fails; with `length != 0` exactly `length` words, the big-endian words from the offset; with `length == 0` one word per pair of bytes to the end of the data, an odd last byte counting as one. |
| NetBuffer.CheckedWords | NetIP/ip_buffer.cpp:26-55 | Corrected: nothing is fed when a guard fails; with `length != 0` exactly `length / 2` words, the big-endian words from the offset; with `length == 0` the same as written. |
| NetBuffer.CheckedWordsAreRfc1071 | NetIP/ip_buffer.cpp:26-55 | Corrected `check`: when the guards pass, the words fed are those of section 4.1 of RFC 1071 for the requested range. The range is `length` bytes from the offset, or to the end of the data when `length` is 0; an odd last byte is padded with a zero low byte. |
| NetBuffer.CheckedWordsSeeOnlyTheData | NetIP/ip_buffer.cpp:26-55 | Corrected `check` reads only the filled part of the buffer: stale bytes beyond it do not matter. |
| NetBuffer.CheckReadsPastTheData | NetIP/ip_buffer.cpp:27-43 | As written, `check (c, 0, 4)` on four bytes of data reads eight: two buffers with the same data but different stale bytes give different words. |
| NetBuffer.AddAllIsSumModulo | NetIP/netip/ip_types.hh:361-364 | Adding words one by one with 32-bit wrap gives the plain sum modulo 2^32. |
| NetBuffer.FoldIsOnesComplementSum | NetIP/netip/ip_types.hh:366-370 | Folding the plain sum gives the ones-complement sum with end-around carry. |
| NetBuffer.ChecksumOfWords | NetIP/netip/ip_types.hh:343-373 | From a cleared accumulator, with at most 0x10001 words (no 32-bit wrap), `checksum` is the complement of the ones-complement sum of the words. |
| NetBuffer.SumBound | NetIP/netip/ip_types.hh:361-364 | The plain sum of `n` words is at most 0xFFFF times `n`. |
| NetBuffer.IPBuffer.constructor | NetIP/netip/ip_buffer.hh:56-60 | A new buffer has length 0 and the configured capacity. |
| NetBuffer.IPBuffer.Clear | NetIP/netip/ip_buffer.hh:43-45 | `clear` sets the length to 0 and keeps the array. |
| NetBuffer.IPBuffer.Append | NetIP/netip/ip_buffer.hh:47-54 | With a non-null source, a non-zero length and room for all of it, the bytes land at `[old length, old length + length)` and the length grows by `length`; the bytes before and after are kept. Otherwise nothing changes. The length never exceeds the capacity. |
| NetBuffer.IPBuffer.Iterator | NetIP/netip/ip_buffer.hh:69-73 | The iterator starts at the first byte with its end at the data length, so its `remaining` is the length. |
| NetBuffer.IPBuffer.CheckAsWritten | NetIP/ip_buffer.cpp:26-55 | `check` as written: the accumulator gains exactly the words of `CheckedWordsAsWritten`. That is nothing when a guard fails, `length` words when `length` is not 0, and the words to the end of the data when it is 0. The buffer is not written. |
| NetBuffer.IPBuffer.Check | NetIP/ip_buffer.cpp:26-55 | Corrected `check`: the accumulator gains exactly the words of `CheckedWords`, which are `length / 2` words when `length` is not 0. |
| NetBuffer.FeedWords | NetIP/ip_buffer.cpp:39-43 | The counted loop adds `n` consecutive words and moves the iterator `2n` bytes. |
| NetBuffer.FeedPairs | NetIP/ip_buffer.cpp:45-48 | The loop adds whole words while two or more bytes remain, and stops with fewer than two left. |
| NetBuffer.Remainder | NetIP/ip_buffer.cpp:44-53 | The `length == 0` branch adds the words to the end of the data, then an odd last byte padded with a zero low byte. |
| NetBuffer.ReadNS32 | NetIP/netip/ip_buffer.hh:85-88 | `ns32` copies the next four bytes and steps over them. |
| PinServos.Initial | arduino/Hello/pinservo.cpp:27-35 | A new `PinServo` has limits 544 and 2400, is in angle mode, and has angle 90. |
| PinServos.SwitchedOn | arduino/Hello/pinservo.cpp:41-48 | `on` attaches if detached, with the pin and limits. It then writes the angle or the microseconds according to the mode. |
| PinServos.SwitchedOff | arduino/Hello/pinservo.cpp:50-53 | `off` leaves the servo detached and writes nothing. |
| PinServos.WithLimits | arduino/Hello/pinservo.cpp:55-63 | New limits. An attached servo is re-attached with them and driven as configured; a detached one is untouched. |
| PinServos.WithAngle | arduino/Hello/pinservo.cpp:65-70 | Angle mode with the new value, always. The angle is written only when attached; the attachment is unchanged. |
| PinServos.WithExact | arduino/Hello/pinservo.cpp:72-77 | Microseconds mode with the new value, always. It is written only when attached; the attachment is unchanged. |
| PinServos.Commanded | arduino/Hello/pinservo.cpp:79-142 | `minmax` succeeds exactly when `argc == 5` and `500 <= min < max <= 2500`. `angle` succeeds exactly when `argc == 4` and `0 <= a <= 180`. `microseconds` succeeds exactly when `argc == 4` and `10 <= v < 10000`. `on` and `off` always succeed, and an unknown word fails. A failure changes nothing. |
| PinServos.CommandKeepsDriven | arduino/Hello/pinservo.cpp:79-142 | Every command keeps an attached servo attached with the configured pin and limits and driven with the configured pulse. |
| PinServos.AcceptedCommandChanges | arduino/Hello/pinservo.cpp:79-142 | An accepted command changes exactly what it names: the two limits, or the mode and value, or only the attachment. Only `on` and `off` change whether the servo is attached. |
| PinServos.PinServo.constructor | arduino/Hello/pinservo.cpp:27-35 | The fields are the initial settings, and the servo has never been attached. |
| PinServos.PinServo.On | arduino/Hello/pinservo.cpp:41-48 | The fields are unchanged; the servo becomes `SwitchedOn`. |
| PinServos.PinServo.Off | arduino/Hello/pinservo.cpp:50-53 | The fields are unchanged; the servo becomes `SwitchedOff`. |
| PinServos.PinServo.SetMinMaxMicroseconds | arduino/Hello/pinservo.cpp:55-63 | The fields and the servo become `WithLimits` (off, then on, when attached). |
| PinServos.PinServo.SetAngle | arduino/Hello/pinservo.cpp:65-70 | The fields and the servo become `WithAngle`. |
| PinServos.PinServo.SetExact | arduino/Hello/pinservo.cpp:72-77 | The fields and the servo become `WithExact`. |
| PinServos.PinServo.Command | arduino/Hello/pinservo.cpp:79-142 | The returned flag, the new fields and the new servo are those of `Commanded`. |

## Left out

- Views.View.Search: `search` loops until its worklist is empty, and nothing bounds that. The model runs at most `fuel` refinements and returns what is still queued. It also does not state which regions the resolved views end with.
- Views.View.Refine: in the no-edge case the source re-runs `__remove_occluded` only to print the comparisons. The model re-runs the sweep, which changes nothing (`Candidates.SweepIdempotent`), and leaves the prints out.
- Printing and illustration: the `print` calls, the `printing` flag, and the `show_projections`/`space.add_poly` illustration are left out. They do not affect the searched state.
- `View.show_history` is left out: it only emits debug geometry.
- The geometry kernel is uninterpreted. Floating-point arithmetic is not modelled, and each collaborator is a deterministic function:
  - `Plane.project`, `project_and_crop`, `crop_visible`, `compare_visible` and `nearest_intersection`;
  - `split`, `reflect`, `reverse`, `center` and `np.linalg.norm`.
- Receiver seeding: `space.cube` and the `View` constructor are parameters of `Receivers.Receiver.constructor`.
- `View.search` (as the receiver calls it), the material queries, `copy`, `reflect_view` and `refract_view` are parameters of the receiver's methods, bundled in `Optics`.
- Receivers.Receiver.Search: after a round raises, the model does not state the queue it leaves behind, because Python leaves it partly drained. The sources it collects are local and never returned, as in the source.
- `Link::in_chain` and `Link::remove_from_chain` are declared but their bodies are not part of this model. They are specified as membership and as removal from the sequence.
- The `Chain` iterator, `IP_Address`, `IP_BufferIterator::address`, `ip_config.hh` and the destructors are not part of this model. The destructors do nothing, except `~PinServo`, which calls `off`.
- NetTypes.NS32.Hi and NetTypes.NS32.Lo are reads only. They carry no contract of their own. What they return is stated by `NetTypes.HalvesMakeTheWhole`. Writing through the returned references is not modelled.
- `ns32_t`'s union is its four bytes; the `lword` view is its big-endian value, which ignores host byte order.
- Aliasing of links and bytes is not modelled. A chain is a sequence of its own, so prepending a link that sits in another chain, which overwrites its `link_next` in the C++ and corrupts that chain (`NetIP/netip/ip_types.hh:283-292`), is not captured. A `BufferIterator` holds a copy of the bytes, where the C++ iterator points into the live buffer and sees later writes.
- NetTypes.BufferIterator.ReadNS16, NetTypes.NS32.AssignFrom and NetBuffer.ReadNS32 require the bytes they read to lie inside the array. The C++ reads through a raw pointer without a bounds check.
- NetBuffer.IPBuffer.CheckAsWritten requires that the as-written loop stays inside the array (`offset + 2 * length` bytes at most the capacity). Beyond it the C++ reads memory outside the buffer, which has no defined result.
- The buffer capacity `IP_Buffer_WordCount << 1` is a constructor parameter, assumed at most 0xFFFF so that lengths fit in `u16_t`. The array's initial bytes are a parameter too.
- The uninitialised `ns16_t h` of `check` is not modelled: both of its bytes are written before the odd byte is added.
- The Arduino `Servo` library is reduced to the attachment (pin and limits) and the last value written. What it does with a pulse is not modelled, and `detach` keeps the last value written.
- `String::toInt` is left out: the converted arguments are integer inputs, and `argv[2]` is the sub-command string.
- The usage and range messages printed by `help` and `command` are left out.

## Findings

| source | as written | input that shows it | evidently intended | confidence | as-written member | corrected member |
|---|---|---|---|---|---|---|
| NetIP/netip/ip_types.hh:176-185 | `ns32_t = i` shifts `i` left between byte stores, so bytes 0-2 become 0 and only `i & 0xFF` survives | `i = 0x01020304` reads back as 4 | shift right, storing the big-endian bytes of `i` | high, not executed | NetTypes.ShiftedAssignLosesHighBytes | NetTypes.BigEndianRoundTrip |
| NetIP/ip_buffer.cpp:27-43 | the guard treats `length` as bytes, but the loop adds `length` words, reading `2 * length` bytes | `check (c, 0, 4)` on a buffer holding 4 bytes adds 4 words and reads 4 stale bytes past the data | add `length / 2` words, the RFC 1071 words of the `length`-byte range | high, not executed | NetBuffer.CheckReadsPastTheData | NetBuffer.CheckedWordsAreRfc1071 |
| scene/Receiver.py:42-43 | the `(through, child)` pair of `refract_view` is appended as one queue element, and the next round calls `search` on it | a first round that resolves a refractive, non-reflective view makes the second round raise | queue both views; return the sources | high, not executed | Receivers.SearchRaisesOnRefraction | Receivers.FixedQueuesBothRefractedViews |
