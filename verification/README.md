# A verified model of the S2 geometry core

This project models five parts of the S2 library under `src/s2` and proves what
they are for.

* **Compressed vectors** of integers, strings, cell ids and points: every list
  that is encoded is read back, whatever the search for bit widths, bases and
  overlaps decides, and searching in encoded space agrees with searching the
  values. (`Words`, `Coder`, `UintVector`, `StringVector`, `CellIdVector`,
  `CellValue`, `BlockCode`, `PointBase`, `Nibbles`, `PointBlock`, `PointVector`)
* **Boolean operations**: `CrossingProcessor` walks the boundary of one region
  and writes edges and a log of crossings and state changes; `GraphEdgeClipper`
  reads the log and clips the snapped edges. The processor restores its
  semi-open state after every edge, and the walk misses nothing. What comes out
  is compared with what the regions contain under their boundary models: points
  and polylines, polygon edges that coincide with none, and edges that both
  regions have. The clipper is in the processor's state at every edge exactly
  under a stated condition, and clips each chain to its steps inside.
  (`Shapes`, `EdgeScan`, `BoundaryRules`, `ClipLog`, `Output`, `Processor`,
  `BoundaryWalk`, `Containment`, `LinePasses`, `PointLoops`, `SharedEdges`,
  `SharedPasses`, `EdgeClipper`, `Replay`, `Alternation`, `ChainOrder`)
* **Updating a mutable index**: the lock protocol of lazy updates, the division
  into batches and their use of memory, the recursive clipping of edges, and the
  merge that fills the index cells. (`LazyUpdate`, `BatchSizes`,
  `BatchGenerator`, `EdgeClipping`, `IndexCell`)
* **Decoding an encoded index lazily**, and discarding what has been decoded.
  (`LazyDecode`)
* **Intervals on the circle**. (`S1Interval`)

Code that changes state is modelled by classes, methods and loops, which are
proved against functions; the theorems are lemmas about those functions.
Concurrent code is a state machine whose steps are single accesses to shared
memory, and its theorems hold for every run of any number of threads.

## Where the code departs from its documentation

* `EncodedS2CellIdVector::lower_bound` answers `size()` for every target from
  `End(kMaxLevel)` on, so stored ids must be below it
  (`SearchIsRightIff`, `EndAnswerCanBeWrong`).
* The decoder of points shifts a zero word by 64 bits for blocks with 64-bit
  deltas (`src/s2/encoded_s2point_vector.cc:832`), which C++ leaves undefined; the
  model takes the result to be zero (`WideShift`).
* `CrossingIterator` keeps the chain of the previous B edge while the shape stays
  the same, even if the chain does not. That never matters if and only if each
  polyline shape has edges in at most one chain (`FreshIffOneChainEach`,
  `AnswerDependsOnOrder`).
* The second pass over point loops looks up the status of a loop under the id of
  the loop it matches (`src/s2/s2boolean_operation.cc:1807`), but the first pass
  has entered it under the loop's own id; the documented rule holds exactly if
  the two entries agree (`PointLoopRule`, `PointHolesAreDropped`).
* The same lookup creates an entry, under an id of the other region. If an edge of
  this region has that id, and coincides with one of the other region in the same
  direction, it is then taken for one of a sibling pair
  (`src/s2/s2boolean_operation.cc:1807`); otherwise shared edges follow the rule
  (`SharedEdgesFollowRule`, `LoopSpoilsEdge`).
* Subtracting open polygons keeps a sibling pair of the region they are subtracted
  from, when that is the second region, even if they have a pair of the opposite
  kind at the same place; the difference the other way round does not. The
  source uses that operator for symmetric differences only (`Deviates`,
  `SubtractedShell`).
* A polyline AA is documented to contain itself in all models
  (`src/s2/s2boolean_operation.cc:1992-1995`). In the semi-open model, and in the
  open one for loops without boundaries, it does so only as the first polyline of
  its shape, since line 1997 tests for edge 0; in the open model otherwise not at
  all (`PolylineContainsVertex`, `LaterPointLineLosesItself`).
* `GetMaxBatchSizes` promises at most 100 batches, but its lower bound for the
  budget leaves out the removed edges, which may be part of the first batch
  (`BatchesAreLimitedIff`, `TooManyBatches`).
* An edge that the first pass leaves to the second may cross a third edge in its
  interior only if regions violate the preconditions; its parity is then lost
  (`InsideAfter`, `DeferredWithInterior`).
* The shortcut for degenerate snapped edges toggles the state on every crossing,
  although the processor counts polyline crossings twice
  (`ClipperReplaysProcessor`, `DegenerateEdgeLosesStep`).

## Model

| member | source | states |
|---|---|---|
| `PointVector.PointVectorRoundTrip` | src/s2/encoded_s2point_vector.cc:282-550 | Main result for points: for every list of fewer than 2^32 points, reading the bytes that the compact encoder writes gives back every point, through the cell format, its exceptions, or the uncompressed fallback; whatever follows the bytes is left unread |
| `PointVector.EncodeS2PointVectorCompact` | src/s2/encoded_s2point_vector.cc:282-550 | The imperative encoder appends exactly the bytes of the round trip, whatever the variable for the base bits held before |
| `PointVector.EncodePlan` | src/s2/encoded_s2point_vector.cc:458-549 | Header, base and blocks of a plan are written as the reader expects them |
| `PointVector.EncodeBlocks` | src/s2/encoded_s2point_vector.cc:477-549 | Every 16 points become one string, which is the encoding of that block |
| `PointVector.CompactRoundTrip` | src/s2/encoded_s2point_vector.cc:796-868 | The cell format alone: parsing succeeds, consumes its own bytes only and represents the points |
| `PointVector.FastRoundTrip` | src/s2/encoded_s2point_vector.cc:170-219 | The uncompressed format alone |
| `PointVector.EncodeS2PointVectorFast` | src/s2/encoded_s2point_vector.cc:170-187 | The uncompressed encoder appends those bytes |
| `PointVector.BestLevelIsMost` | src/s2/encoded_s2point_vector.cc:570-576 | The chosen level has the most points, and is the first such level |
| `PointVector.ChooseBestLevel` | src/s2/encoded_s2point_vector.cc:556-590 | The loops find that level, or -1 when at most 5% of the points are on it |
| `PointVector.ConvertCellsToValues` | src/s2/encoded_s2point_vector.cc:598-623 | The loop yields the values of the cells of the level and marks the rest as exceptions |
| `PointVector.ValuesAreValid` | src/s2/encoded_s2point_vector.cc:586-588 | At a chosen level not everything is an exception, so the number of base bits is set; the values lie between the base and 2^63 |
| `PointVector.ChosenPlanIsGood` | src/s2/encoded_s2point_vector.cc:438-456 | The plan that the encoder computes meets every precondition of its second half |
| `PointVector.EncodedS2PointVector.Init` | src/s2/encoded_s2point_vector.cc:120-136 | Succeeds exactly on the byte strings that parse, and holds what was parsed |
| `PointVector.EncodedS2PointVector.InitUncompressedFormat` | src/s2/encoded_s2point_vector.cc:189-219 | The same for the uncompressed format |
| `PointVector.EncodedS2PointVector.InitCellIdsFormat` | src/s2/encoded_s2point_vector.cc:796-818 | The same for the cell format |
| `PointVector.EncodedS2PointVector.Decode` | src/s2/encoded_s2point_vector.cc:138-145 | Decoding one by one gives the points of the view |
| `PointVector.EncodedS2PointVector.Encode` | src/s2/encoded_s2point_vector.cc:148-163 | Writes the vector again, by copying or by decoding and encoding |
| `PointVector.ReencodeIsIdentity` | src/s2/encoded_s2point_vector.cc:147-163 | Reading a vector and writing it again gives the bytes of the first writing |
| `PointBlock.BlockRoundTrip` | src/s2/encoded_s2point_vector.cc:820-853 | Position j of a block decodes to its value or its exception, whatever follows the block in memory |
| `PointBlock.WideShift` | src/s2/encoded_s2point_vector.cc:831-833 | The decoder shifts by 64 exactly for 64-bit deltas, and then there is no offset to shift |
| `PointBlock.ChosenCodeFits` | src/s2/encoded_s2point_vector.cc:509-533 | With the chosen parameters the offset fits its bytes and is zero exactly without any, and every delta (16 more with exceptions) fits its nibbles |
| `PointBlock.ExceptionSlice` | src/s2/encoded_s2point_vector.cc:845-850 | The k-th exception lies where the decoder looks for it |
| `PointBlock.FindOffset` | src/s2/encoded_s2point_vector.cc:496-507 | The loop finds the least value above the base and counts the exceptions |
| `PointBlock.PutDelta` | src/s2/encoded_s2point_vector.cc:534-540 | Taking back the last byte and writing it again combined keeps the buffer a packing of the deltas |
| `PointBlock.EncodeDeltas` | src/s2/encoded_s2point_vector.cc:517-547 | The loop packs the deltas and appends the exceptions in order |
| `PointBlock.EncodeBlock` | src/s2/encoded_s2point_vector.cc:480-547 | One block is appended, within the limits of its header |
| `Nibbles.PackedIsStream` | src/s2/encoded_s2point_vector.cc:517-541 | For odd and even widths the packed bytes are the nibbles of all deltas in order, padded to whole bytes |
| `Nibbles.PackedLength` | src/s2/encoded_s2point_vector.cc:847-849 | The packed deltas take as many bytes as the decoder skips to reach the exceptions |
| `Nibbles.ReadInside` | src/s2/encoded_s2point_vector.cc:836-842 | The read of any position stays inside the packed bytes |
| `Nibbles.DeltaRoundTrip` | src/s2/encoded_s2point_vector.cc:836-842 | For 1 to 16 nibbles, position i decodes to the i-th packed delta, whatever follows |
| `PointBase.BaseBitsSound` | src/s2/encoded_s2point_vector.cc:648-670 | The base is at most every value, has at most 7 bytes and survives its shift out and back |
| `PointBase.PrefixIsShared` | src/s2/encoded_s2point_vector.cc:648-651 | Beyond the excluded bits all values agree |
| `PointBase.ExcludedIsLeast` | src/s2/encoded_s2point_vector.cc:648-657 | The base leaves out only what the values do not share, what the shortest deltas cover, and what goes beyond seven bytes |
| `PointBase.BaseBitsIsLeast` | src/s2/encoded_s2point_vector.cc:658-670 | Its length is the least number of bytes that holds it |
| `PointBase.ChooseBase` | src/s2/encoded_s2point_vector.cc:625-671 | The method computes that base, and leaves the number of bits unset exactly when there are only exceptions |
| `BlockCodes.CanEncodeIsSpans` | src/s2/encoded_s2point_vector.cc:675-689 | The overflow-avoiding comparison means: the greatest value is within the largest delta of the rounded-down least one |
| `BlockCodes.LastAttemptSpans` | src/s2/encoded_s2point_vector.cc:749-764 | The claim about the worst case: one nibble more together with an overlap always suffices |
| `BlockCodes.FullWidthSpans` | src/s2/encoded_s2point_vector.cc:757-759 | With 64-bit deltas every range fits, so the width is never raised beyond 64 |
| `BlockCodes.OffsetFitsPlain` | src/s2/encoded_s2point_vector.cc:781-792 | Without an overlap the number of bytes found from the least workable offset holds the block's own offset |
| `BlockCodes.OffsetFitsOverlapped` | src/s2/encoded_s2point_vector.cc:781-792 | With an overlap this rests on the failure of the attempt without one |
| `BlockCodes.BlockParamsSound` | src/s2/encoded_s2point_vector.cc:751-793 | All limits of the header at once: widths, overlap with at least one byte of offset, three bits for the offset length, and a zero offset exactly without bytes |
| `BlockCodes.GetBlockCode` | src/s2/encoded_s2point_vector.cc:695-794 | The method computes these parameters |
| `BlockCodes.DeltaIsLeast` | src/s2/encoded_s2point_vector.cc:751-764 | No shorter deltas would span the block, with or without overlap |
| `BlockCodes.BlockCodeIsSound` | src/s2/encoded_s2point_vector.cc:695-794 | They are sound for the least and greatest value of any block below 2^63 |
| `CellValue.InterleaveRoundTrip` | src/s2/encoded_s2point_vector.cc:52-91 | De-interleaving bit pairs inverts interleaving, for all pairs of 32-bit words |
| `CellValue.CellRoundTrip` | src/s2/encoded_s2point_vector.cc:615-617 | The decoder recovers face, si and ti from the value of a cell of any level |
| `CellValue.ValueNumberFits` | src/s2/encoded_s2point_vector.cc:618-618 | The value has at most 2 * level + 3 bits |
| `CellValue.ValueNumberRoundTrip` | src/s2/encoded_s2point_vector.cc:862-865 | The same as numbers: every cell centre of a level is recovered from its number |
| `CellIdVector.EncodedIdsRoundTrip` | src/s2/encoded_s2cell_id_vector.cc:38-169 | For every list of fewer than 2^32 arbitrary 64-bit ids, reading the encoding yields the list |
| `CellIdVector.CellIdVectorRoundTrip` | src/s2/encoded_s2cell_id_vector.cc:119-169 | The same for any admissible shift and base, not only the chosen ones |
| `CellIdVector.EncodeS2CellIdVector` | src/s2/encoded_s2cell_id_vector.cc:38-141 | The imperative encoder writes those bytes |
| `CellIdVector.Summarize` | src/s2/encoded_s2cell_id_vector.cc:68-74 | The accumulator loop yields or, and, minimum and maximum of the ids |
| `CellIdVector.ChooseBaseLength` | src/s2/encoded_s2cell_id_vector.cc:91-109 | The loop over the lengths keeps the cheapest base |
| `CellIdVector.BestLenIsCheapest` | src/s2/encoded_s2cell_id_vector.cc:88-109 | No base length is cheaper, and no shorter one is as cheap |
| `CellIdVector.EncodingIsShortest` | src/s2/encoded_s2cell_id_vector.cc:80-117 | With the chosen shift, no other number of base bytes takes fewer bytes for base and deltas |
| `CellIdVector.CostIsSize` | src/s2/encoded_s2cell_id_vector.cc:91-109 | The cost by which the length is chosen is the number of bytes that base and deltas take |
| `CellIdVector.WidestShiftIsWidest` | src/s2/encoded_s2cell_id_vector.cc:76-87 | The shift is the widest even one up to 56 that loses no bit of any id, and one more exactly if all ids have that bit |
| `CellIdVector.ShiftIsAtMost56` | src/s2/encoded_s2cell_id_vector.cc:85-116 | The intermediate shift of 57 is always given up again |
| `CellIdVector.ChosenIsAdmissible` | src/s2/encoded_s2cell_id_vector.cc:80-114 | The chosen shift and base lose no bit of any id |
| `CellIdVector.DeltaRoundTrip` | src/s2/encoded_s2cell_id_vector.h:97-99 | Base plus shifted delta is the id, whether or not the base covers the implied low bit |
| `CellIdVector.BaseRoundTrip` | src/s2/encoded_s2cell_id_vector.cc:130-132 | The bytes of the base survive their shift out and back |
| `CellIdVector.DeltaTargetIsExact` | src/s2/encoded_s2cell_id_vector.h:101-112 | Rounding the target up makes comparisons of deltas agree with those of ids |
| `CellIdVector.EncodedS2CellIdVector.Init` | src/s2/encoded_s2cell_id_vector.cc:143-169 | Succeeds exactly on what parses, and holds what was parsed |
| `CellIdVector.EncodedS2CellIdVector.LowerBound` | src/s2/encoded_s2cell_id_vector.h:101-112 | For sorted ids and any target below End(kMaxLevel), or up to the base, the first id that is not smaller; other targets yield size() |
| `CellIdVector.EndAnswerIsRightIff` | src/s2/encoded_s2cell_id_vector.h:107-109 | size() is the right answer exactly if the last stored id is smaller than the target |
| `CellIdVector.SearchIsRightIff` | src/s2/encoded_s2cell_id_vector.h:101-112 | lower_bound is right for every target if and only if the vector is empty, its last id is below End(kMaxLevel), or no id exceeds the base |
| `CellIdVector.EndAnswerCanBeWrong` | src/s2/encoded_s2cell_id_vector.h:107-109 | A stored id of 0xFF << 56 for which the answer to End(kMaxLevel) is wrong |
| `StringVector.StringVectorRoundTrip` | src/s2/encoded_string_vector.cc:42-67 | Reading what was written gives the strings back, and leaves what follows |
| `StringVector.CutIsExact` | src/s2/encoded_string_vector.h:153-170 | The offsets cut the data into strings that together are all of it |
| `StringVector.WriteExtendsLast` | src/s2/encoded_string_vector.h:139-142 | Writing to the shared encoder extends the last string only |
| `StringVector.StringVectorEncoder.AddViaEncoder` | src/s2/encoded_string_vector.h:139-142 | Starts a new, empty string |
| `StringVector.StringVectorEncoder.Add` | src/s2/encoded_string_vector.h:133-137 | Adds one string |
| `StringVector.StringVectorEncoder.Encode` | src/s2/encoded_string_vector.cc:42-50 | Writes the end offsets and the data of the strings, which stay as they are |
| `StringVector.EncodedStringVector.Init` | src/s2/encoded_string_vector.cc:58-67 | Succeeds exactly on what parses, and holds what was parsed |
| `UintVector.UintVectorRoundTrip` | src/s2/encoded_uint_vector.h:205-242 | Reading what was written gives the integers back, and leaves what follows |
| `UintVector.ElementLengthIsLeast` | src/s2/encoded_uint_vector.h:215-218 | No shorter length holds all elements |
| `UintVector.EncodeUintVector` | src/s2/encoded_uint_vector.h:205-227 | The loops write those bytes |
| `UintVector.EncodedUintVector.Init` | src/s2/encoded_uint_vector.h:229-241 | Succeeds exactly on what parses, and holds what was parsed |
| `UintVector.EncodedUintVector.LowerBound` | src/s2/encoded_uint_vector.h:283-296 | The binary search in encoded space splits the elements at the target |
| `UintVector.EncodedUintVector.Encode` | src/s2/encoded_uint_vector.h:307-315 | Writes header and data again |
| `UintVector.ReencodeIsIdentity` | src/s2/encoded_uint_vector.h:307-315 | Those are the bytes the vector was read from |
| `Coder.GetUintIsFromLe` | src/s2/encoded_uint_vector.h:153-194 | The loads of 4, 2 and 1 bytes from the end together read the little-endian integer, for every length up to 8 |
| `Coder.EncodeUintWithLength` | src/s2/encoded_uint_vector.h:139-151 | The loop writes the low-order bytes of a value that fits |
| `Coder.Decoder.GetUint` | src/s2/encoded_uint_vector.h:196-203 | Fails exactly when too few bytes are left, and advances by the length otherwise |
| `Coder.VarintRoundTrip` | src/s2/util/coding/coder.h:82-86 | A varint is read back, whatever follows it |
| `Coder.Decoder.GetVarint64` | src/s2/util/coding/coder.h:252-254 | Succeeds exactly on the byte strings that start with a varint |
| `Coder.Encoder.PutVarint64` | src/s2/util/coding/coder.h:185-186 | Appends the varint of a word |
| `Coder.Encoder.PutN` | src/s2/util/coding/coder.h:69-69 | Appends the bytes |
| `Coder.Encoder.RemoveLast` | src/s2/util/coding/coder.h:138-138 | Takes back the last bytes and no others |
| `BoundaryWalk.AddBoundary` | src/s2/s2boolean_operation.cc:2048-2096 | Main result for the walk: it ends; the edges handed to the processor are, in order and once each, exactly those that start inside or have crossings; what is emitted is the concatenation, over these edges, of the emissions that the Point, Line and Face decisions prescribe when the state is containment of the edge's first vertex and the crossings scanned are its own; and the table of degenerate loops is the one that this walk leaves |
| `BoundaryWalk.ScansOwnCrossings` | src/s2/s2boolean_operation.cc:2048-2096 | In a whole pass every edge visited scans exactly its own crossings, and in the end none is left |
| `BoundaryWalk.UncrossedEdges` | src/s2/s2boolean_operation.cc:2066-2090 | An edge of a shape that counts, without crossings, is emitted once and as it is if it starts inside, and is not visited otherwise |
| `BoundaryWalk.WalkChain` | src/s2/s2boolean_operation.cc:2066-2090 | One chain from an entry on: what is processed and emitted is extended by the edges needed up to the end of the chain |
| `BoundaryWalk.EnterChain` | src/s2/s2boolean_operation.cc:2066-2073 | A chain is entered at a start, which is used up, or at a crossing; either makes progress, no edge of the chain has been visited before, and its edges are processed and emitted |
| `BoundaryWalk.VisitShape` | src/s2/s2boolean_operation.cc:2052-2093 | All chains of one shape |
| `BoundaryWalk.AddBoundaryPair` | src/s2/s2boolean_operation.cc:2271-2299 | If two identical regions are subtracted nothing is emitted. Otherwise exactly the edges needed are processed in both passes; the emissions are those of the first pass followed by those of the second, which starts with the degenerate loops found by the first; and in the log every crossing edge is named by the input id of its own emitted copy |
| `BoundaryWalk.AreRegionsIdentical` | src/s2/s2boolean_operation.cc:2528-2581 | True exactly if both indexes have the same shapes |
| `BoundaryWalk.StateMoves` | src/s2/s2boolean_operation.cc:2048-2096 | Along every tracked edge the state goes from containment of its start to containment of its end (exclusive or with the inversion of B) |
| `BoundaryWalk.StatePastStart` | src/s2/s2boolean_operation.cc:1578-1586 | With the crossings at its start, the state just past the start of an edge is containment there |
| `BoundaryWalk.UnmatchedEdge` | src/s2/s2boolean_operation.cc:1566-1893 | An edge that coincides with none of B is emitted exactly as containment just past its start says, or to be cut at interior crossings |
| `BoundaryWalk.DropsUntracked` | src/s2/s2boolean_operation.cc:1912-1923 | Crossings with polylines are logged exactly if the other pass emits polylines |
| `BoundaryWalk.VisitEdge` | src/s2/s2boolean_operation.cc:2070-2084 | One edge: it is processed, its emissions are appended, the status is that of the walk, its crossings are consumed and registered, and the state is containment of its end |
| `BoundaryWalk.OutsideRun` | src/s2/s2boolean_operation.cc:2083-2090 | From an outside point on, everything up to the next crossing is outside, so skipping loses nothing |
| `BoundaryWalk.NothingDeferred` | src/s2/s2boolean_operation.cc:1785-1787 | If coinciding edges have no interior crossings, no parity is lost by deferring |
| `BoundaryWalk.GetChainStarts` | src/s2/s2boolean_operation.cc:2108-2161 | The starts found are exactly the non-empty chains of the shapes that can contribute whose first vertex is inside, in order, followed by the sentinel |
| `BoundaryWalk.HasInterior` | src/s2/s2boolean_operation.cc:2189-2195 | True exactly if some shape is a polygon |
| `BoundaryWalk.LoggedIsRegistered` | src/s2/s2boolean_operation.cc:1235-1256 | A crossing logged by one pass names an edge that the other pass registers |
| `BoundaryWalk.AllResolved` | src/s2/s2boolean_operation.cc:2013-2029 | So the translation finds every source in its map |
| `Processor.CrossingProcessor.ProcessEdge1` | src/s2/s2boolean_operation.cc:1566-1630 | Polyline edges, all models and inversions: the emissions are those of the decisions, the semi-open state is restored (old state exclusive or the parity of all polygon crossings), and an inverted pass emits nothing |
| `Processor.CrossingProcessor.ProcessEdge2` | src/s2/s2boolean_operation.cc:1698-1893 | Polygon edges: the state is restored except exactly for an odd number of interior crossings of a deferred edge; emissions and degenerate holes are those of the decisions, which SharedPasses.SharedEdgesFollowRule and BoundaryWalk.UnmatchedEdge compare with containment |
| `Processor.CrossingProcessor.ProcessEdge0` | src/s2/s2boolean_operation.cc:1469-1495 | A point is emitted exactly if its region is not inverted and the other contains it |
| `Processor.CrossingProcessor.ProcessEdge` | src/s2/s2boolean_operation.cc:1436-1448 | All dimensions: exactly the emissions of the edge, its whole new status (state, isolated vertices, degenerate loops, iterator), and its entry in the table of crossed edges |
| `Processor.Setting.ScanFacts` | src/s2/s2boolean_operation.cc:1902-1967 | The three counts add up to the polygon crossings modulo 2, and what is logged is from the other region and has the parity of the interior crossings |
| `Processor.Setting.UncrossedEdge` | src/s2/s2boolean_operation.cc:1469-1893 | Without crossings an edge of any dimension is emitted as a whole or not at all, as the state says, and leaves the state alone |
| `Processor.Setting.LogsOwnCrossings` | src/s2/s2boolean_operation.cc:1235-1263 | The crossings logged with an edge's emissions are crossings of that edge; points log none |
| `Processor.Setting.DeferredWithInterior` | src/s2/s2boolean_operation.cc:1777-1788 | Interior crossings are left uncounted only if an edge coincides with another, or is a point, and crosses a third one |
| `Processor.Setting.RegistersInterior` | src/s2/s2boolean_operation.cc:1912-1923 | An interior crossing of the edge is never overlooked by the scan |
| `Processor.CrossingProcessor.ProcessEdgeCrossings` | src/s2/s2boolean_operation.cc:1902-1967 | The loop consumes exactly the crossings of the edge and computes the scan, whose fields mean what EdgeScan.ScanParityAt, ScanFinds and ScanSources, and Containment.ScanRaises and ScanLogs say |
| `Processor.CrossingProcessor.ProcessPointCrossings` | src/s2/s2boolean_operation.cc:1504-1530 | The same for points |
| `Processor.CrossingProcessor.SkipCrossings` | src/s2/s2boolean_operation.cc:1497-1500 | Consumes exactly the crossings of the edge |
| `Processor.CrossingProcessor.StartBoundary` | src/s2/s2boolean_operation.cc:1403-1416 | Sets the inversions and announces them in the log |
| `Processor.CrossingProcessor.StartChain` | src/s2/s2boolean_operation.cc:1425-1434 | Sets the limits of the chain and the state at its start |
| `Processor.CrossingProcessor.DoneBoundaryPair` | src/s2/s2boolean_operation.cc:2013-2029 | Every source in the log becomes the input id of its edge, without changing what the log means |
| `Processor.CrossingIterator.Next` | src/s2/s2boolean_operation.cc:1036-1110 | Moves on and keeps the remembered chain in step with the shape |
| `Processor.EmitLine` | src/s2/s2boolean_operation.cc:1580-1629 | The branches of the polyline case compute the decisions and restore the state |
| `Processor.EmitFace` | src/s2/s2boolean_operation.cc:1755-1892 | The same for polygons |
| `Processor.Restored` | src/s2/s2boolean_operation.cc:1841-1892 | Overriding the state and counting one more crossing at the end compensate each other |
| `Processor.LineKeepsGood` | src/s2/s2boolean_operation.cc:1593-1629 | A polyline edge keeps the invariant between log, graph and history |
| `Processor.FaceKeepsGood` | src/s2/s2boolean_operation.cc:1852-1892 | A polygon edge keeps it |
| `EdgeScan.ScanParity` | src/s2/s2boolean_operation.cc:1902-1967 | The counts at both vertices and inside together count the toggles, modulo 2 |
| `EdgeScan.ScanParityAt` | src/s2/s2boolean_operation.cc:1943-1958 | Each count has the parity of the polygon crossings at its own place: those that touch the start, those that touch only the end, and those in the interior |
| `EdgeScan.PlacesMakeUp` | src/s2/s2boolean_operation.cc:1943-1958 | The three places together are the whole edge |
| `EdgeScan.ScanPending` | src/s2/s2boolean_operation.cc:1912-1923 | Interior crossings have the parity of the polygon crossings logged: polylines count twice |
| `EdgeScan.ScanFinds` | src/s2/s2boolean_operation.cc:1924-1964 | Each matching edge, sibling, point loop and interior crossing of the segment is reflected in the result |
| `EdgeScan.ScanSources` | src/s2/s2boolean_operation.cc:1908-1966 | What is reported comes from a crossing of this edge |
| `EdgeScan.PointHasNoVertexCrossings` | src/s2/s2boolean_operation.cc:1924-1964 | A degenerate edge crosses nothing at its vertex and matches nothing |
| `EdgeScan.StaleChainChangesAnswer` | src/s2/s2boolean_operation.cc:1085-1104 | A deviation: the remembered chain is not refreshed within a shape, so with two polylines in one shape a last vertex counts as contained |
| `EdgeScan.FreshIffOneChainEach` | src/s2/s2boolean_operation.cc:1085-1104 | Every scan over every list of crossings looks at the chain of its own edge if and only if no polyline shape of B has edges in more than one chain, or chains do not matter (closed polylines, polygon edges) |
| `EdgeScan.AnswerDependsOnOrder` | src/s2/s2boolean_operation.cc:1902-1967 | Two valid lists with the same two crossings in different order for which the scan gives different answers about the end of the edge |
| `LinePasses.LineEdgesFollowModel` | src/s2/s2boolean_operation.cc:1566-1630 | Main result for polylines, over a whole pass: an edge is emitted in the state, inside or outside, that containment in B's polygons (under the model, just past its start) and on B's polylines (except in unions) gives after inversion; if it is neither inside nor cut, only vertices come out |
| `LinePasses.PointsFollowModel` | src/s2/s2boolean_operation.cc:1469-1530 | Main result for points, over a whole pass: a point comes out exactly if B's points (except in unions), polylines under their model, or polygons under theirs contain it, after inversion |
| `Containment.EdgeFollowsModel` | src/s2/s2boolean_operation.cc:1656-1692 | The decision for a polyline edge, degenerate or not, is containment in polygons and polylines |
| `Containment.VertexFollowsModel` | src/s2/s2boolean_operation.cc:1636-1652 | The decision for a vertex of a polyline likewise |
| `Containment.PointFollowsModel` | src/s2/s2boolean_operation.cc:1477-1493 | And that for a point |
| `Containment.PolylineContainsVertex` | src/s2/s2boolean_operation.cc:1978-2009 | The answers for the edges of a polyline come to what its model says of the numbers of its vertices, exactly except for polylines that do not leave their first vertex |
| `Containment.LaterPointLineLosesItself` | src/s2/s2boolean_operation.cc:1992-1999 | A deviation: a polyline AA contains itself only if it is the first in its shape |
| `Containment.OwnVertices` | src/s2/s2boolean_operation.cc:1572-1626 | Which vertices of an edge's own polyline may be emitted on their own: those it contains, the vertex of a loop without boundaries only at its end |
| `Containment.ScanRaises` | src/s2/s2boolean_operation.cc:1925-1964 | A scan reports that an end lies on a polygon or polyline, or that the edge coincides with a polyline edge, if and only if one of its crossings does so |
| `Containment.PointScanRaises` | src/s2/s2boolean_operation.cc:1504-1530 | The same for points |
| `Containment.ScanLogs` | src/s2/s2boolean_operation.cc:1912-1923 | What is logged for an edge is, in order, its interior crossings with polygons, and with polylines if it is one itself and they are not dropped |
| `SharedPasses.SharedEdgesFollowRule` | src/s2/s2boolean_operation.cc:1698-1893 | Main result for shared edges, over both whole passes, for every boundary model and inversion: where both regions have polygon edges between two vertices, each of the two directed edges comes out exactly once if it bounds the result (in terms of which sides and which edges the regions contain) and otherwise not at all, if and only if no point loop has been looked up under that edge's id; sibling pairs aside that an open subtraction keeps |
| `SharedEdges.SharedEdgeRule` | src/s2/s2boolean_operation.cc:1816-1883 | The same for the edges of the second pass, one or two faces: single edges, shells and holes of either region, with or without sibling |
| `SharedEdges.SameDirection` | src/s2/s2boolean_operation.cc:1736-1746 | Spelled out: an edge that both polygons have in the same direction remains in intersection and union and vanishes in the difference, in all models |
| `SharedEdges.OppositeDirections` | src/s2/s2boolean_operation.cc:1736-1746 | Polygons that touch along an edge: the intersection has a sibling pair there exactly in the closed model, the union exactly in the open model, and the difference keeps the edge of the first region |
| `SharedEdges.ShellAtEdge` | src/s2/s2boolean_operation.cc:1736-1746 | A degenerate shell at an edge of the other polygon, for the three operations and models |
| `SharedEdges.HoleAtEdge` | src/s2/s2boolean_operation.cc:1736-1746 | The same for a degenerate hole |
| `SharedEdges.PairsAtEdge` | src/s2/s2boolean_operation.cc:1736-1746 | Two sibling pairs at the same place |
| `SharedEdges.SubtractedShell` | src/s2/s2boolean_operation.cc:1739-1746 | A deviation: of two equal degenerate shells of open polygons, subtracting the first from the second leaves a pair, and the second from the first does not |
| `SharedEdges.SpoiledEntry` | src/s2/s2boolean_operation.cc:1798-1836 | If the table of degenerate loops has an entry that was meant for a point loop, the rule is followed all the same if and only if the other region does not have the edge in the same direction |
| `SharedEdges.LoopSpoilsEdge` | src/s2/s2boolean_operation.cc:1798-1836 | A concrete point loop and shared edge for which it is not: the edge is dropped |
| `SharedEdges.IsolatedVertex` | src/s2/s2boolean_operation.cc:1848-1861 | A shared vertex becomes a degenerate loop, if no kept edge starts there, exactly if both regions contain it, or if it is a point loop that an open region is subtracted from |
| `SharedEdges.LoopAtVertex` | src/s2/s2boolean_operation.cc:1798-1815 | When a point loop at a vertex of the other region is kept, for all models |
| `SharedPasses.TableKnowsPairs` | src/s2/s2boolean_operation.cc:1759-1797 | After the first pass, an entry for an edge of region 1 means that its sibling is there as well, and says whether the pair lies inside |
| `SharedPasses.TableFindsPairs` | src/s2/s2boolean_operation.cc:1785-1797 | Every sibling pair of region 1 along an edge of region 0 has an entry |
| `SharedPasses.WalkEnters` | src/s2/s2boolean_operation.cc:1798-1836 | During the second pass entries stay, and the only new ones are made by point loops that are decided by the table, and read as no hole |
| `SharedPasses.FaceIsDescribed` | src/s2/s2boolean_operation.cc:1755-1840 | What the second pass has in hand at a shared edge: the matches, the entry and the state, in terms of the two regions |
| `SharedPasses.MatchIff` | src/s2/s2boolean_operation.cc:1943-1952 | A scan finds a matching edge, or its sibling, if and only if the other region has one |
| `PointLoops.PointLoopRule` | src/s2/s2boolean_operation.cc:1759-1807 | Over both passes: the first leaves a point loop to the second and enters the status of the other region's loop, which is whether it lies inside; unless degeneracies are kept anyway, the second pass follows the rule (kept if both are holes or both shells) if and only if the entry under the other loop's id says the same as the loop's own |
| `PointLoops.TableKnowsLoops` | src/s2/s2boolean_operation.cc:1759-1783 | After any edges of the first pass, an entry for a point loop of B says whether it lies inside |
| `PointLoops.TableFindsLoops` | src/s2/s2boolean_operation.cc:1759-1763 | A loop that some edge of the first pass finds has an entry from then on |
| `PointLoops.WalkKeepsTable` | src/s2/s2boolean_operation.cc:1798-1836 | The second pass never changes what an entry, or a missing entry, reads as |
| `PointLoops.PointHolesAreDropped` | src/s2/s2boolean_operation.cc:1798-1807 | A concrete pair of regions, meeting all hypotheses, whose two point holes at one place are both dropped |
| `Outputs.EdgeKeepsGood` | src/s2/s2boolean_operation.cc:1235-1263 | AddEdge keeps the log a faithful record of state, dimension and crossings of every emission, and the table of ids leads from crossed edges to their emitted copies |
| `Outputs.PointKeepsGood` | src/s2/s2boolean_operation.cc:1268-1277 | AddPointEdge keeps it |
| `Outputs.StatesKeepGood` | src/s2/s2boolean_operation.cc:1403-1416 | So do the markers for the inversions |
| `Outputs.FinishedKeepsGood` | src/s2/s2boolean_operation.cc:2013-2029 | And so does the translation to input ids |
| `ClipLog.AddEmission` | src/s2/s2boolean_operation.cc:1240-1262 | The entries written for an edge are read back as its crossings and its state |
| `ClipLog.AddState` | src/s2/s2boolean_operation.cc:1229-1231 | A marker changes the state from the next edge on |
| `ClipLog.RetagRepresents` | src/s2/s2boolean_operation.cc:2013-2029 | Renaming sources keeps what a log represents |
| `Replay.ClipperReplaysProcessor` | src/s2/s2boolean_operation.cc:365-518 | Main result for the clipper: if every crossing gets a vertex, its state at every input edge is the processor's if and only if no chain with crossings ends with a nonzero even number of copies and no degenerate snapped edge carries an odd number of polyline crossings |
| `Replay.RunClipsAsMeant` | src/s2/s2boolean_operation.cc:365-518 | Then the result is every emitted edge, clipped in the state in which it was emitted; what that means for a chain is Alternation.ChainIsClipped |
| `Replay.EdgeReplays` | src/s2/s2boolean_operation.cc:379-517 | One input edge from the right state: the entries read are its own, and it ends in step if and only if the condition holds for it |
| `Replay.GroupFollows` | src/s2/s2boolean_operation.cc:399-517 | For one chain the state afterwards is the processor's if and only if the condition holds |
| `Replay.GroupRuns` | src/s2/s2boolean_operation.cc:379-517 | The main loop deals with an input edge as a whole |
| `Replay.SignsParity` | src/s2/s2boolean_operation.cc:468-470 | The signed crossings add up to the polygon crossings modulo 2 |
| `Replay.CountParity` | src/s2/s2boolean_operation.cc:399-402 | Counting all crossings, as for degenerate edges, differs by the polyline crossings |
| `Replay.ChoiceIrrelevant` | src/s2/s2boolean_operation.cc:449-479 | The sum of the signs does not depend on the vertices chosen for the crossings |
| `Replay.StateIgnoresChoice` | src/s2/s2boolean_operation.cc:420-517 | Neither does the state after an input edge |
| `Replay.OutputFits` | src/s2/s2boolean_operation.cc:1235-1276 | What the processor leaves behind meets the hypotheses of these results |
| `Replay.DegenerateEdgeLosesStep` | src/s2/s2boolean_operation.cc:399-402 | A concrete input, the log that the processor writes for two crossing lines and a graph in which one is a point: it meets all hypotheses and the clipper is out of step after the first edge |
| `EdgeClipper.Run` | src/s2/s2boolean_operation.cc:365-518 | The loop computes the run over order and log, position by position |
| `EdgeClipper.ClipChain` | src/s2/s2boolean_operation.cc:488-516 | Along a chain, step k emits as many copies as the state and the earlier signed crossings add up to, in the signed direction, followed by the isolated vertices |
| `Alternation.ChainIsClipped` | src/s2/s2boolean_operation.cc:414-516 | Main result for one chain: if its polygon crossings alternate between entering and leaving the other region, the first one entering exactly if the state is outside, the output is each step inside once, forwards or reversed as the state says, none of the others, and the isolated vertices; and the state afterwards is that past all crossings |
| `Alternation.InsideIsOutput` | src/s2/s2boolean_operation.cc:488-502 | The steps inside are output exactly once and the others not at all |
| `Alternation.MultiplicityIsInside` | src/s2/s2boolean_operation.cc:488-491 | So the number of copies is one inside and zero outside |
| `Alternation.SignsInOrder` | src/s2/s2boolean_operation.cc:449-479 | Adding up signs in the order of the log gives what entering and leaving add up to in the order of the chain |
| `Alternation.IsolatedIsOutside` | src/s2/s2boolean_operation.cc:472-516 | A vertex with a crossing is output on its own exactly if no step next to it lies inside |
| `EdgeClipper.CountCrossings` | src/s2/s2boolean_operation.cc:449-479 | The accumulated number at each vertex is the sum of the signs there; with Alternation.SignsInOrder these are the crossings that enter and leave, in the order of the chain |
| `EdgeClipper.ReadEntries` | src/s2/s2boolean_operation.cc:383-395 | The log loop reads exactly the entries of an edge |
| `ChainOrder.GetInputEdgeChainOrder` | src/s2/s2boolean_operation.cc:217-270 | If the edges of each input edge form a simple path, the result is a permutation grouped by ascending input id in which consecutive edges join head to tail |
| `ChainOrder.SortGroup` | src/s2/s2boolean_operation.cc:232-268 | One group becomes its path, and the scratch degrees are zero again |
| `ChainOrder.Gather` | src/s2/s2boolean_operation.cc:244-249 | Sources and degrees of a group |
| `ChainOrder.FindFirst` | src/s2/s2boolean_operation.cc:252-256 | Finds the first edge of the path |
| `ChainOrder.BuildChain` | src/s2/s2boolean_operation.cc:258-266 | Writes the path and clears the degrees it touches |
| `ChainOrder.FirstEdge` | src/s2/s2boolean_operation.cc:252-256 | An edge of a simple path starts where none ends if and only if it is the first |
| `ChainOrder.NextEdge` | src/s2/s2boolean_operation.cc:258-266 | The search in the sorted pairs can only yield the next edge of the path |
| `ChainOrder.LowerBound` | src/s2/s2boolean_operation.cc:258-266 | The least pair that is not before a vertex |
| `LazyUpdate.ProtocolIsSafe` | src/s2/mutable_s2shape_index.cc:596-655 | Main result for lazy updates, any number of threads, every interleaving: nothing destroyed is used, at most one thread applies updates, it holds the mutex of a live update state, the number of waiters is right, each state is destroyed once, and callers return only when FRESH, with nothing pending and every change that has been made in the index |
| `LazyUpdate.AppliedOnce` | src/s2/mutable_s2shape_index.cc:596-655 | Between a stale status and the next fresh one, exactly one step applies the pending changes, and it applies all of them |
| `LazyUpdate.ReturnedSeesAll` | src/s2/mutable_s2shape_index.cc:640-655 | A thread that returns finds the changes in the index in the order in which they were made, each once, and none pending |
| `LazyUpdate.ChangeIsSeen` | src/s2/mutable_s2shape_index.cc:596-655 | A change that marks the index stale is in the index whenever any thread returns after it |
| `LazyUpdate.StepKeepsData` | src/s2/mutable_s2shape_index.cc:596-655 | Every atomic step keeps the account of changes: what has been made is what is in the index followed by what is pending, and nothing is pending once the updater is past applying it |
| `LazyUpdate.StepKeepsInv` | src/s2/mutable_s2shape_index.cc:596-655 | Every atomic step of every thread keeps the invariant |
| `LazyUpdate.RunKeepsInv` | src/s2/mutable_s2shape_index.cc:596-655 | So all reachable states have it |
| `LazyUpdate.QuiescentIsClean` | src/s2/mutable_s2shape_index.cc:640-655 | Between calls no update state and no lock is left |
| `LazyUpdate.NoDeadlock` | src/s2/mutable_s2shape_index.cc:596-655 | Whenever some thread is in a call, one of them can go on |
| `LazyUpdate.StepsAreBounded` | src/s2/mutable_s2shape_index.cc:596-655 | Every step inside a call brings its thread closer to returning |
| `BatchGenerator.GetUpdateBatches` | src/s2/mutable_s2shape_index.cc:713-735 | For every sequence of shapes the batches are contiguous, end at the last shape in use, have sizes that sum to removed plus added edges and stay within the maximum in force; the maxima are the sizes for this budget |
| `BatchGenerator.EdgeAddedOnce` | src/s2/mutable_s2shape_index.cc:682-694 | Over the whole update every edge of every shape is added by exactly one batch |
| `BatchGenerator.InExactlyOne` | src/s2/mutable_s2shape_index.cc:682-694 | Each (shape, edge) id lies in exactly one batch, so shapes without edges are reached once as well |
| `BatchGenerator.FinishedOnce` | src/s2/mutable_s2shape_index.cc:696-701 | A shape that is split satisfies the FinishPartialShape trigger exactly once, in the batch with the last of its edges |
| `BatchGenerator.AddBatch` | src/s2/mutable_s2shape_index.cc:684-692 | The loop over the shapes of a batch adds each at most once, with just the edges that the batch holds |
| `BatchGenerator.Generator.AddShape` | src/s2/mutable_s2shape_index.cc:793-821 | All three branches keep the invariant, index the maxima within bounds, and the split loop ends |
| `BatchGenerator.Generator.SplitShape` | src/s2/mutable_s2shape_index.cc:804-819 | The split of a shape, up to its last edge |
| `BatchGenerator.Generator.FinishBatch` | src/s2/mutable_s2shape_index.cc:834-845 | Closes a batch; the loop stays within the maxima |
| `BatchGenerator.Generator.Finish` | src/s2/mutable_s2shape_index.cc:823-832 | The batches are complete |
| `BatchGenerator.Generator.constructor` | src/s2/mutable_s2shape_index.cc:765-791 | The maxima are the sizes for the budget with the last one repeated, and cover the update |
| `BatchSizes.GetMaxBatchSizes` | src/s2/mutable_s2shape_index.cc:856-905 | One batch if everything fits at once; otherwise just as many batches as are needed, number j of the ideal size times the j-th power of the multiplier, rounded up, with the removed edges in the first or in a batch of their own |
| `BatchSizes.MemoryOfBatch` | src/s2/mutable_s2shape_index.cc:866-886 | Every batch, with the edges of earlier batches in their final form, takes the same memory, the total budget, up to rounding |
| `BatchSizes.TotalIsLeast` | src/s2/mutable_s2shape_index.cc:875-886 | The total budget is the least that leaves the given budget to the first batch and lets the first 99 batches hold all added edges |
| `BatchSizes.SizesServe` | src/s2/mutable_s2shape_index.cc:889-905 | The sizes cover all edges, the first has room for the removed ones, and they fall, to no less than half |
| `BatchSizes.BatchesAreLimitedIff` | src/s2/mutable_s2shape_index.cc:875-904 | The promise of at most 100 batches holds if and only if everything fits at once, the removed edges get a batch of their own, or 100 batches have room for them as well; in particular if nothing is removed |
| `BatchSizes.TooManyBatches` | src/s2/mutable_s2shape_index.cc:889-904 | 35000 removed and 1000000 added edges without a temporary budget need more than 100 batches |
| `BatchGenerator.BatchMemory` | src/s2/mutable_s2shape_index.cc:847-886 | Of the batches that are generated, each keeps to the total budget up to rounding, except for a first batch with more removed edges than that |
| `BatchSizes.HalfAtMost` | src/s2/mutable_s2shape_index.cc:895-901 | Rounding keeps that a size is at most twice the next |
| `BatchGenerator.AdvanceEnds` | src/s2/mutable_s2shape_index.cc:840-843 | The index after a batch is the one in force, and exists |
| `BatchGenerator.FinishKeeps` | src/s2/mutable_s2shape_index.cc:834-845 | Closing a batch keeps the invariant and moves on by at most one maximum |
| `BatchGenerator.SplitStep` | src/s2/mutable_s2shape_index.cc:808-813 | A turn of the split loop leaves more than the next maximum, and room to go on |
| `BatchGenerator.SplitLast` | src/s2/mutable_s2shape_index.cc:814-818 | The last two parts are not empty, fit, and leave the same space up to one edge |
| `BatchGenerator.NextExists` | src/s2/mutable_s2shape_index.cc:799-803 | A shape that does not fit leaves a next maximum to compare with |
| `EdgeClipping.PartKeeps` | src/s2/mutable_s2shape_index.cc:1458-1482 | Main result for clipping: for each quadrant, every point of the edge in the parent's bound and on the quadrant's side lies in the bound passed to that child |
| `EdgeClipping.CellGetsEdge` | src/s2/mutable_s2shape_index.cc:1374-1482 | An edge reaches a cell, along any path, if and only if it has a point in all quadrants on the way there |
| `EdgeClipping.CellBoundIsExact` | src/s2/mutable_s2shape_index.cc:1374-1577 | Its bound there is the bounding box, in u and v, of exactly the part of the edge in those quadrants |
| `EdgeClipping.PartIsBox` | src/s2/mutable_s2shape_index.cc:1458-1482 | For one quadrant: the bounding box of a piece becomes that of its part in the quadrant |
| `EdgeClipping.PartEnters` | src/s2/mutable_s2shape_index.cc:1458-1482 | A part is passed on only if the piece enters the quadrant |
| `EdgeClipping.ClipUIsBox` | src/s2/mutable_s2shape_index.cc:1516-1577 | Clipping in u turns the bounding box of a piece of the edge into that of the part of the piece on the kept side, in both coordinates |
| `EdgeClipping.ClipVIsBox` | src/s2/mutable_s2shape_index.cc:1546-1577 | So does clipping in v |
| `EdgeClipping.DescentKeeps` | src/s2/mutable_s2shape_index.cc:1374-1482 | The same along any path of cells |
| `EdgeClipping.SomeQuadrant` | src/s2/mutable_s2shape_index.cc:1458-1482 | Every point belongs to some quadrant, so none is lost |
| `EdgeClipping.ClipUBound` | src/s2/mutable_s2shape_index.cc:1516-1545 | The clipped bound is not empty, inside the parent's and on its side |
| `EdgeClipping.ClipVBound` | src/s2/mutable_s2shape_index.cc:1546-1564 | The same for v |
| `EdgeClipping.ClipUKeeps` | src/s2/mutable_s2shape_index.cc:1516-1577 | Clipping in u loses no point on the kept side |
| `EdgeClipping.ClipVKeeps` | src/s2/mutable_s2shape_index.cc:1546-1577 | Clipping in v loses none |
| `EdgeClipping.ClipVAxis` | src/s2/mutable_s2shape_index.cc:1351-1367 | The three cases of the v axis yield these parts |
| `EdgeClipping.DivideEdge` | src/s2/mutable_s2shape_index.cc:1458-1482 | The five cases for an edge yield the same four parts |
| `EdgeClipping.DivideEdges` | src/s2/mutable_s2shape_index.cc:1455-1483 | So does the loop over all edges |
| `EdgeClipping.ChildHoldsPoint` | src/s2/mutable_s2shape_index.cc:1455-1483 | Each child's list has, for every edge and point that belong to it, a part with that point |
| `EdgeClipping.ChildHoldsParts` | src/s2/mutable_s2shape_index.cc:1455-1483 | And nothing but parts of the given edges |
| `EdgeClipping.StartHoldsEdge` | src/s2/mutable_s2shape_index.cc:1264-1276 | The first bound holds the whole edge |
| `EdgeClipping.InterpolateIs` | src/s2/s2edge_clipping.h:178-194 | Both formulas give the point of the line |
| `EdgeClipping.OnItsSide` | src/s2/mutable_s2shape_index.cc:1516-1545 | Which end of the other coordinate is updated follows from the slope |
| `IndexCells.MakeIndexCell` | src/s2/mutable_s2shape_index.cc:1704-1922 | Main result for cells: the cell has every shape with edges in it or around its center exactly once, in increasing order, each with just its own edges and containing the center if and only if tracked there; the tracker moves to the exit vertex; a crowded cell is refused untouched |
| `IndexCells.FillCell` | src/s2/mutable_s2shape_index.cc:1863-1905 | The merge of edges and containing shapes fills exactly the counted entries |
| `IndexCells.CountShapes` | src/s2/mutable_s2shape_index.cc:1937-1957 | The count is the size of the union of both id sets |
| `IndexCells.MustSubdivide` | src/s2/mutable_s2shape_index.cc:1816-1828 | Refuses exactly if there are too many short edges |
| `IndexCells.TooManyMeans` | src/s2/mutable_s2shape_index.cc:1816-1828 | A cell is refused if and only if its short edges are more than any cell may have and more than the given fraction of its edges and shapes |
| `IndexCells.InteriorTracker.ToggleShape` | src/s2/mutable_s2shape_index.cc:393-415 | The sorted list stays sorted and its set changes by exactly the one id |
| `IndexCells.InteriorTracker.TestAllEdges` | src/s2/mutable_s2shape_index.cc:1924-1932 | Toggles the shapes of the crossing edges that have an interior |
| `IndexCells.ToggledByParity` | src/s2/mutable_s2shape_index.cc:427-432 | A shape changes sides if and only if it is crossed an odd number of times |
| `IndexCells.InteriorTracker.AddShape` | src/s2/mutable_s2shape_index.cc:385-391 | Activates the tracker and enters a shape that contains the focus |
| `IndexCells.InteriorTracker.LowerBound` | src/s2/mutable_s2shape_index.cc:435-440 | The first position that is not below the id |
| `IndexCells.InteriorTracker.SaveAndClearStateBefore` | src/s2/mutable_s2shape_index.cc:442-449 | Moves exactly the ids below the limit aside |
| `IndexCells.InteriorTracker.RestoreStateBefore` | src/s2/mutable_s2shape_index.cc:451-457 | Brings them back, and keeps the ids from the limit on as they are now |
| `IndexCells.EdgesInRun` | src/s2/mutable_s2shape_index.cc:1890-1899 | In sorted edges the run of a shape is all of its edges |
| `LazyDecode.RunKeepsInv` | src/s2/encoded_s2shape_index.cc:51-103 | Main result for lazy decoding: no interleaving of any number of calls, with Minimize in between, reads an unwritten slot or deletes an object twice |
| `LazyDecode.CallersAgree` | src/s2/encoded_s2shape_index.cc:51-103 | All callers for one cell or shape get the same object, which exists until Minimize |
| `LazyDecode.AnswersAreDecoded` | src/s2/encoded_s2shape_index.cc:51-103 | A caller gets an object exactly if the cell or shape can be decoded, and then one that has been decoded from that cell or shape |
| `LazyDecode.NoLeak` | src/s2/encoded_s2shape_index.cc:82-103 | When no call is under way, every object is in the one slot that owns it: later copies have been deleted, and the cache lists all decoded cells unless it is full |
| `LazyDecode.NothingLost` | src/s2/encoded_s2shape_index.h:366-374 | No step clears a bit of a shared group or takes back an answer |
| `LazyDecode.StepKeepsInv` | src/s2/encoded_s2shape_index.cc:51-103 | Every atomic step of every thread keeps the invariant |
| `LazyDecode.StepKeepsFrom` | src/s2/encoded_s2shape_index.cc:51-103 | Every step keeps that the objects in slots and in the hands of threads have been decoded from the data that belong there |
| `LazyDecode.BitIsAdded` | src/s2/encoded_s2shape_index.h:366-374 | The store of a group adds the one bit |
| `LazyDecode.NoDeadlock` | src/s2/encoded_s2shape_index.cc:51-103 | Some thread in a call can go on, and comes closer to the end of its call |
| `LazyDecode.MinimizeKeeps` | src/s2/encoded_s2shape_index.cc:160-193 | After Minimize the invariant holds again |
| `LazyDecode.EncodedIndex.Minimize` | src/s2/encoded_s2shape_index.cc:160-193 | Both branches delete every decoded object exactly once, clear every bit, and reset the shapes that are not null |
| `LazyDecode.EncodedIndex.ClearShapes` | src/s2/encoded_s2shape_index.cc:163-169 | The loop over the shapes |
| `LazyDecode.EncodedIndex.ClearCached` | src/s2/encoded_s2shape_index.cc:170-178 | The loop over the cache |
| `LazyDecode.EncodedIndex.ClearScanned` | src/s2/encoded_s2shape_index.cc:179-191 | The scan of the groups |
| `LazyDecode.EncodedIndex.ClearGroup` | src/s2/encoded_s2shape_index.cc:182-189 | The scan of one group, from its lowest bit |
| `LazyDecode.CacheIsAll` | src/s2/encoded_s2shape_index.cc:170-178 | A cache below its limit lists every decoded position, so clearing their groups clears all bits |
| `S1Intervals.UnionIsSmallest` | src/s2/s1interval.cc:224-253 | The union is valid, contains both operands and is no longer than any interval that does, for all empty, full, singleton and inverted operands |
| `S1Intervals.IntersectionIsSmallest` | src/s2/s1interval.cc:255-279 | The intersection is valid, contains all common points and is no longer than any interval that does |
| `S1Intervals.IntersectionIsExact` | src/s2/s1interval.cc:255-279 | Unless one operand has both ends of the other, it has no other points |
| `S1Intervals.HausdorffIsGreatest` | src/s2/s1interval.cc:131-160 | The directed Hausdorff distance is the greatest distance of a point of x to y, and is attained; it is 0 for an empty x and otherwise half a turn for an empty y |
| `S1Intervals.HausdorffAttained` | src/s2/s1interval.cc:136-158 | It is attained at the complement center of y or at an end of x |
| `S1Intervals.ProjectIsNearest` | src/s2/s1interval.cc:183-192 | Project finds a nearest point |
| `S1Intervals.ContainsIsSubset` | src/s2/s1interval.cc:87-98 | One interval contains another if and only if it has all its points |
| `S1Intervals.IntersectsIsCommonPoint` | src/s2/s1interval.cc:110-119 | Intervals intersect if and only if they have a common point |
| `S1Intervals.ContainsPointIsHas` | src/s2/s1interval.cc:60-73 | A point is contained if and only if it lies on the way from lo to hi |
| `S1Intervals.CenterIsOutside` | src/s2/s1interval.cc:52-58 | The complement center is not in the interval |
| `S1Intervals.BoundsAreValid` | src/s2/s1interval.h:224-228 | The constructor normalizes to a valid interval with the same ends |
| `S1Intervals.S1Interval.AddPoint` | src/s2/s1interval.cc:162-181 | The endpoint changed in place gives the union with the point, and never the full circle |
| `S1Intervals.AddedPointIsLeast` | src/s2/s1interval.cc:162-181 | No shorter interval contains the old one and the point |
| `S1Intervals.PairIsAddedTwice` | src/s2/s1interval.cc:194-204 | A pair gives what adding both points one after the other gives, and at most half a circle |

## Left out

- `PointVector.PointVectorRoundTrip`: the conversions between points and cells are parameters; whenever a level is reported for a point, the centre of that cell is assumed to be the point. A point is its 24 bytes.
- `CellIdVector.EncodedS2CellIdVector.LowerBound`: for targets from `End(kMaxLevel)` on it states what the code answers, which is right only under the condition of `EndAnswerIsRightIff`.
- `UintVector.UintVectorRoundTrip`: the element type is fixed to 64 bits.
- `Coder.VarintRoundTrip`: varints are modelled by their encoding, without the unrolled fast paths, which are only a matter of speed.
- `BoundaryWalk.AddBoundary`: containment, of vertices and just past the start of edges, is an oracle that changes along an edge with the parity of its polygon crossings; edges of A that coincide with edges of B have no interior crossings; for boolean output it may stop early.
- `BoundaryWalk.AddBoundaryPair`: with a builder only; chains of points have one edge each.
- `SharedPasses.SharedEdgesFollowRule`: the crossings are taken to list all pairs of edges with the same vertices, no polygon edge to occur twice in a region, and containment next to a sibling pair to be the same on all edges along it.
- `LinePasses.LineEdgesFollowModel`: coinciding edges are listed; what vertices come out on their own is stated by the decisions, for one edge at a time.
- `LinePasses.PointsFollowModel`: the crossings of a point are those with the edges that meet it; polyline shapes have one chain each unless polylines are closed, without which the scan may look at a wrong chain (`FreshIffOneChainEach`).
- `Alternation.ChainIsClipped`: crossings that do not alternate, which rounding can cause, get the copies that `ClipChain` states.
- `Replay.ClipperReplaysProcessor`: every crossing has been given a vertex; the branch that only logs an error changes nothing.
- `ChainOrder.GetInputEdgeChainOrder`: the sorting by input edge of the graph class is a parameter, as is the order of equal sort keys.
- `LazyUpdate.ProtocolIsSafe`, `LazyDecode.RunKeepsInv`: memory is sequentially consistent; the memory orderings of the atomic accesses are not modelled.
- `LazyDecode.StepKeepsInv`: a group of 64 bits is the set of the bits that are set; whether a cell can be decoded depends on its data only.
- `BatchSizes.GetMaxBatchSizes`: real arithmetic.
- `EdgeClipping.CellGetsEdge`: real arithmetic, so without padding and error bounds.
- `S1Intervals.UnionIsSmallest`: real arithmetic, with half a turn as an arbitrary positive number.
- `IndexCells.MakeIndexCell`: which edges cross the lines to the center and to the exit vertex is a parameter; the insertion into the map of cells is left to the caller.
- Geometric predicates and constructions, and everything that finds the crossings: `GetIndexCrossings`, `GatherIncidentEdges`, `GetCrossedVertexIndex`, `EdgeChainOnLeft`.
- The mode with boolean output in `GetChainStarts` and `ProcessIncidentEdges`, the composition of operations in `BuildOpType`, and the full-polygon heuristics.
- The rest of the index update: `AbsorbIndexCell`, `SkipCellRange`, `ShrinkToFit`, `RemoveShape`, the interior of split shapes, edge sampling and memory estimates.
- Null shapes in the boolean operation, which count as shapes without edges.
- `EncodedS2ShapeIndex::Init` and its iterator, which moves over positions found with `EncodedS2CellIdVector::lower_bound`.
- `EncodedStringVector::Encode`, and `Decode` of the vectors other than points, which copy or repeat what is modelled.
- `Expanded`, `ApproxEquals`, `InteriorContains` and `InteriorIntersects` of the intervals.
- Widths of `int` indices and of sizes below 2^32, memory tracking, reservation of space, and logging.
- The R interface around the library.
