# Verified model of the perception pipeline and the presence backend

A Dafny model of the parts of this system in which something is decided, with proofs of what those parts promise.
`dafny verify dfyconfig.toml` checks all of it. One module models one component:

- **YOLO output layer** (`YoloSlots`, `YoloLayout`, `YoloValues`, `YoloJob`, `YoloMeaning`, `YoloThreads`, `YoloRaces`,
  `YoloEnqueue`). The grid of GPU threads that scatters boxes, scores and classes. `YoloEnqueue` is the imperative
  code over arrays, with the threads of a launch in any order; `YoloThreads` interleaves the stores of all threads of
  all batches and tensors. Both hold for all grid shapes whose stores fit the buffers. The row stride of the slot
  computation is the grid's height, so only square and single-row grids give each thread a slot of its own, and these
  end in the same reference buffers (`YoloLayout.LayoutCondition`, `YoloLayout.SafeExactly`); wider ones race
  (`YoloRaces.WideGridRaces`). `YoloMeaning` says what the box, score and class of a cell are by the equations they
  satisfy.
- **Plugin file** (`PluginCodec`, `PluginLayout`). The nested length-prefixed record of the engine file, its writer
  and its reader, and its bytes.
- **Base64** (`Base64`, `Base64Decoding`). The table-driven codec against the bit stream of RFC 4648.
- **Darknet loader** (`CfgParser`, `CfgNumbers`, `CfgBlocks`, `CfgMeaning`, `LayerRefs`, `WeightCursor`, `WeightFile`,
  `NetworkBuilder`, `NetworkGraph`, `ModelLoader`, `DenseTensor`, `Reorg`, `Reorg3d`). From the text of a
  configuration file and one flat list of weights to a layer graph: the line parser, the block reader, the weight
  file, layer references in wrapping 32-bit arithmetic, the weight cursor with batch-norm folding, the build loop, and
  what the reshapes and slices of the reorg layers do to the data. `CfgMeaning` and `NetworkGraph` describe the result
  key by key and block by block.
- **Presence alerts** (`PresenceThreads`, `PresenceTiming`). The message thread and the checker thread, statement by
  statement without a lock, and the same code in timed runs.
- **Watchdog** (`Watchdog`). The once-a-second state machine that takes silent streams out of the pipeline and puts
  them back.
- **MQTT sender** (`MqttSender`). The bounded retry of a send, and the queue between probes and sender.
- **Box decoders** (`BBoxDecode`, `YoloDetections`). The list of the CPU and the array of the GPU, and what the output
  layer hands them.

`Options`, `YoloTensor` and `GridArithmetic` hold shared definitions.

Conventions: code that aborts, throws or reads out of bounds yields `None` (an error value in `Base64`). Results of
TensorRT, GStreamer, mosquitto and the clock are inputs, over which everything is quantified. Floats are `real`; the
exponential is any positive function; power, square root and `std::stof` are any function. Integers are unbounded
under the assumption that nothing overflows, except where wrapping is the point: layer references, stored list sizes,
base64 words.

Findings, each a theorem below:

- Slots collide or are left unwritten for tensors that are neither square nor one row high
  (`YoloSlots.ShapeCondition`), and in grids wider than high the result depends on the schedule
  (`YoloRaces.WideGridRaces`).
- A negative `from` is off by one from a route layer's number exactly when no net or dropout block comes before the
  layer (`NetworkBuilder.JoinPicks`); `ModelLoader.LateNetIsOffByOne` gives files that load. With two or more such
  blocks no `from` is accepted (`LayerRefs.ResolveExactly`).
- The loader does not check that masks name anchors (`ModelLoader.ReadableExactly`).
- The CPU decoder looks up a threshold at index -1 when a thread of the new-coordinates kernel has no class value
  above zero (`YoloDetections.DecodableExactly`).
- `reorg3d` drops elements for every stride above 2 and for odd sides (`Reorg3d.NothingLost`). It concatenates along
  the batch axis.
- A block of type `conv` passes the dispatch of the build and then fails the first assert of the convolutional layer
  (`NetworkBuilder.ConvIsRefused`).
- An exit can be announced for a person no longer inactive, exactly when a recent update is stored between the
  checker's test and its alert (`PresenceThreads.StaleExitExactly`, and a run in
  `PresenceThreads.ExitMayIgnoreUpdate`).
- A failed state change of a delete leaves the pad with the muxer (`Watchdog.BalanceExactly`).
- A stream whose re-add makes no bin is lost for good (`Watchdog.LostForGood`).
- For an oversized payload the log of the sender says that the packet is discarded; the code keeps it at the front of
  the queue and sends it again (`MqttSender.FrontStays`). The model follows the code.

## Model

| member | source | states |
|---|---|---|
| `YoloSlots.ShapeCondition` | perception/custom-parser/deepstream-yolo/nvdsinfer_custom_impl_Yolo/yoloForward.cu:50 | `count` is a bijection from the cells of a nonempty grid onto the tensor's slots if and only if the grid is square or has one row; a wider grid collides, a taller one leaves the range |
| `YoloSlots.CountIsInjective` | perception/custom-parser/deepstream-yolo/nvdsinfer_custom_impl_Yolo/yoloForward.cu:50 | with such a shape no two cells share a slot |
| `YoloSlots.CellAtIsInverse` | perception/custom-parser/deepstream-yolo/nvdsinfer_custom_impl_Yolo/yoloForward.cu:50 | with such a shape every slot of the tensor is the slot of a cell |
| `YoloSlots.WideGridCollides` | perception/custom-parser/deepstream-yolo/nvdsinfer_custom_impl_Yolo/yoloForward.cu:50 | in a grid wider than high two cells share a slot |
| `YoloSlots.TallGridOverflows` | perception/custom-parser/deepstream-yolo/nvdsinfer_custom_impl_Yolo/yoloForward.cu:50 | in a grid higher than wide a cell's slot is past the tensor's range |
| `YoloSlots.TallGridHole` | perception/custom-parser/deepstream-yolo/nvdsinfer_custom_impl_Yolo/yoloForward.cu:50 | in a grid higher than wide no cell has the slot after the first row |
| `YoloSlots.LaunchCovers` | perception/custom-parser/deepstream-yolo/nvdsinfer_custom_impl_Yolo/yoloForward.cu:70-72 | every coordinate of the grid belongs to exactly one of the launched threads |
| `YoloSlots.AddressBound` | perception/custom-parser/deepstream-yolo/nvdsinfer_custom_impl_Yolo/yoloForward.cu:21-22 | for every grid shape a cell's field address is below inputSize |
| `YoloSlots.AddressUnique` | perception/custom-parser/deepstream-yolo/nvdsinfer_custom_impl_Yolo/yoloForward.cu:27-43 | for every grid shape different cells or fields have different addresses |
| `YoloSlots.AddressOnto` | perception/custom-parser/deepstream-yolo/nvdsinfer_custom_impl_Yolo/yoloPlugins.cpp:237 | for every grid shape each address below inputSize is the address of a cell's field |
| `YoloLayout.BuildOutputSize` | perception/custom-parser/deepstream-yolo/nvdsinfer_custom_impl_Yolo/yolo.cpp:461-466 | the loop's sum is the offset that enqueue has accumulated after its last tensor |
| `YoloLayout.LocalSlotBound` | perception/custom-parser/deepstream-yolo/nvdsinfer_custom_impl_Yolo/yoloPlugins.cpp:267 | a tensor's slots stay between its offset and the next tensor's |
| `YoloLayout.SlotUnique` | perception/custom-parser/deepstream-yolo/nvdsinfer_custom_impl_Yolo/yoloPlugins.cpp:215-268 | with right shapes no two threads of any batches and tensors share a slot of the whole buffer |
| `YoloLayout.SlotBound` | perception/custom-parser/deepstream-yolo/nvdsinfer_custom_impl_Yolo/yoloForward.cu:74-82 | with right shapes every slot lies in the buffer of batches times m_OutputSize |
| `YoloLayout.ThreadAt` | perception/custom-parser/deepstream-yolo/nvdsinfer_custom_impl_Yolo/yoloForward.cu:74-82 | with right shapes every slot of the buffer has a launched thread |
| `YoloLayout.LayoutCondition` | perception/custom-parser/deepstream-yolo/nvdsinfer_custom_impl_Yolo/yoloPlugins.cpp:203-271 | for at least one batch: all slots of [0, batches * m_OutputSize) are written exactly once by the launched threads if and only if every tensor with boxes is square or has one row |
| `YoloLayout.SafeExactly` | perception/custom-parser/deepstream-yolo/nvdsinfer_custom_impl_Yolo/yoloForward.cu:50-57 | for at least one batch: no store leaves the buffers and no two threads store to the same slot if and only if every tensor with boxes is square or has one row |
| `YoloLayout.WrongShapeFails` | perception/custom-parser/deepstream-yolo/nvdsinfer_custom_impl_Yolo/yoloForward.cu:50 | one tensor of another shape makes two threads share a slot or leaves a slot unwritten |
| `YoloMeaning.InputIs` | perception/custom-parser/deepstream-yolo/nvdsinfer_custom_impl_Yolo/yoloForward.cu:21-43 | a thread reads field k of its cell in a row-major tensor of shape [batches, boxes, 5 + classes, gridSizeY, gridSizeX] |
| `YoloMeaning.CountSteps` | perception/custom-parser/deepstream-yolo/nvdsinfer_custom_impl_Yolo/yoloForward.cu:50 | for every grid shape, one slot to the next cell of a row, gridSizeY slots to the next row, a grid of slots to the next anchor, from slot 0 |
| `YoloMeaning.SlotSteps` | perception/custom-parser/deepstream-yolo/nvdsinfer_custom_impl_Yolo/yoloPlugins.cpp:215-268 | tensors follow one another in a batch, and batches one another, without gaps, from slot 0 |
| `YoloValues.Best` | perception/custom-parser/deepstream-yolo/nvdsinfer_custom_impl_Yolo/yoloForward.cu:39-48 | maxIndex is the first class of greatest positive probability, -1 if there is none |
| `YoloMeaning.CentreExactly` | perception/custom-parser/deepstream-yolo/nvdsinfer_custom_impl_Yolo/yoloForward.cu:24-31 | in all three kernels: x of the centre comes from field 0 and the column, y from field 1 and the row; with u the logistic of the field (the field itself with new_coords), centre * grid = (cell + 1/2 + (u - 1/2) * scale_x_y) * side, and scale_x_y is 1 in the region kernel |
| `YoloMeaning.SizeExactly` | perception/custom-parser/deepstream-yolo/nvdsinfer_custom_impl_Yolo/yoloForward.cu:33-35 | the width comes from field 2 and the first number of the anchor pair, the height from field 3 and the second; the pair grows by e^field, or by the square of twice the field; without masks it is that of the box, in cells |
| `YoloMeaning.FieldsAreSeparate` | perception/custom-parser/deepstream-yolo/nvdsinfer_custom_impl_Yolo/yoloForward_nc.cu:25-33 | in all three kernels a number of a box depends on its own field of the cell alone |
| `YoloMeaning.AnchorIsUnit` | perception/custom-parser/deepstream-yolo/nvdsinfer_custom_impl_Yolo/yoloForward_nc.cu:31-33 | a size with masks is the anchor where its field calls for no growth: e^field or the square of twice the field is 1 |
| `YoloMeaning.SoftmaxExactly` | perception/custom-parser/deepstream-yolo/nvdsinfer_custom_impl_Yolo/yoloForward_v2.cu:10-28 | the softmax cells are the one distribution that is in proportion to e^(value - largest), largest being the greatest of the values without their fractions |
| `YoloMeaning.ScoreExactly` | perception/custom-parser/deepstream-yolo/nvdsinfer_custom_impl_Yolo/yoloForward_v2.cu:54-76 | in all three kernels the class is the first of greatest positive probability, and the score that probability times the objectness, which comes from field 4; without one they are -1 and 0 |
| `YoloValues.SoftmaxIsDistribution` | perception/custom-parser/deepstream-yolo/nvdsinfer_custom_impl_Yolo/yoloForward_v2.cu:10-28 | the class probabilities of the region kernel are positive and add up to one, for any positive exponential |
| `YoloValues.ChoiceExists` | perception/custom-parser/deepstream-yolo/nvdsinfer_custom_impl_Yolo/yoloForward.cu:39-48 | outside the new-coordinates kernel a class is always chosen, with positive probability |
| `YoloValues.CentreNearCell` | perception/custom-parser/deepstream-yolo/nvdsinfer_custom_impl_Yolo/yoloForward.cu:24-31 | the centre of a box is that of its cell, give or take half of scale_x_y cells, in all three kernels |
| `YoloValues.SizePositive` | perception/custom-parser/deepstream-yolo/nvdsinfer_custom_impl_Yolo/yoloForward.cu:33-35 | positive anchors give boxes of positive size |
| `YoloValues.ScoreInUnit` | perception/custom-parser/deepstream-yolo/nvdsinfer_custom_impl_Yolo/yoloForward_v2.cu:54-75 | outside the new-coordinates kernel a score is a product of two probabilities, strictly between 0 and 1 |
| `YoloJob.Job.IndexUnique` | perception/custom-parser/deepstream-yolo/nvdsinfer_custom_impl_Yolo/yoloForward_v2.cu:16-27 | no two threads of a tensor share an input address or a softmax cell, across batches too |
| `YoloJob.Job.IndexBound` | perception/custom-parser/deepstream-yolo/nvdsinfer_custom_impl_Yolo/yoloPlugins.cpp:237 | every address a thread of any batch uses lies in the tensor's buffer |
| `YoloJob.AllHeldIsReference` | perception/custom-parser/deepstream-yolo/nvdsinfer_custom_impl_Yolo/yoloPlugins.cpp:203-271 | with right shapes, when each launched thread's results are in its slot the buffers equal the slot-by-slot reference, whatever they held before |
| `YoloJob.OneThreadPerSlot` | perception/custom-parser/deepstream-yolo/nvdsinfer_custom_impl_Yolo/yoloPlugins.cpp:203-271 | with right shapes, buffers in which every place holds what some thread of its slot stores are the reference |
| `YoloMeaning.ReferenceAt` | perception/custom-parser/deepstream-yolo/nvdsinfer_custom_impl_Yolo/yoloForward.cu:52-57 | in the reference the box of a thread is at four times its slot, x, y, width, height, and its score and class at the slot |
| `YoloThreads.EveryScheduleGivesReference` | perception/custom-parser/deepstream-yolo/nvdsinfer_custom_impl_Yolo/yoloForward.cu:52-57 | for all grid shapes that fit the buffers: every interleaving, store by store, of all threads of all batches and tensors leaves in each place what a thread of its slot stores, and places without a thread as they were; with right shapes it ends in the reference, so there is no race |
| `YoloRaces.LastDecides` | perception/custom-parser/deepstream-yolo/nvdsinfer_custom_impl_Yolo/yoloForward.cu:52-57 | any thread can be the last to run, and then its slot holds its results |
| `YoloRaces.OrderMatters` | perception/custom-parser/deepstream-yolo/nvdsinfer_custom_impl_Yolo/yoloForward.cu:52-57 | two threads with the same slot and different results give two schedules of one call that end in different buffers |
| `YoloRaces.WideGridRaces` | perception/custom-parser/deepstream-yolo/nvdsinfer_custom_impl_Yolo/yoloForward.cu:50 | for every plugin with a grid that is wider than high and has two or more rows there are inputs for which two schedules of the same call end in different buffers |
| `YoloThreads.StepKeepsInv` | perception/custom-parser/deepstream-yolo/nvdsinfer_custom_impl_Yolo/yoloForward_v2.cu:16-76 | a store of one thread keeps what every thread has stored in its softmax cells, and every place as it was or as a thread of its slot left it |
| `YoloThreads.RunKeepsInv` | perception/custom-parser/deepstream-yolo/nvdsinfer_custom_impl_Yolo/yoloForward_v2.cu:16-76 | the same along every schedule, from any contents of the buffers |
| `YoloThreads.PutOutAt` | perception/custom-parser/deepstream-yolo/nvdsinfer_custom_impl_Yolo/yoloForward.cu:52-57 | an output store changes one place of its thread's slot, to the thread's result |
| `YoloThreads.ChoiceSettled` | perception/custom-parser/deepstream-yolo/nvdsinfer_custom_impl_Yolo/yoloForward_v2.cu:56-67 | a region thread that has divided its cells chooses from the complete softmax, whatever the other threads do meanwhile |
| `YoloEnqueue.LargestOf` | perception/custom-parser/deepstream-yolo/nvdsinfer_custom_impl_Yolo/yoloForward_v2.cu:15-19 | the loop finds the largest of the values truncated to int |
| `YoloEnqueue.SoftmaxGpu` | perception/custom-parser/deepstream-yolo/nvdsinfer_custom_impl_Yolo/yoloForward_v2.cu:10-28 | the three loops leave the softmax of the thread's values in its cells and change no other cell |
| `YoloEnqueue.ChooseClass` | perception/custom-parser/deepstream-yolo/nvdsinfer_custom_impl_Yolo/yoloForward.cu:39-48 | the loop over the classes yields the winning class of the three kernels |
| `YoloEnqueue.RunThread` | perception/custom-parser/deepstream-yolo/nvdsinfer_custom_impl_Yolo/yoloForward.cu:14-58 | a thread of the grid stores its box, score and class in its slot and changes no other slot; one outside returns |
| `YoloEnqueue.Launch` | perception/custom-parser/deepstream-yolo/nvdsinfer_custom_impl_Yolo/yoloForward.cu:70-82 | a launch runs all its threads in any order; each slot holds the results of one of the threads run so far that have it, or is as at the start |
| `YoloEnqueue.LaunchBatches` | perception/custom-parser/deepstream-yolo/nvdsinfer_custom_impl_Yolo/yoloForward.cu:74-82 | the same after the loop over the batches, for all threads of the tensor |
| `YoloEnqueue.Enqueue` | perception/custom-parser/deepstream-yolo/nvdsinfer_custom_impl_Yolo/yoloPlugins.cpp:203-271 | for all grid shapes that fit the buffers, of any contents: each slot ends with the results of one of its threads, or as it was if it has none; with right shapes the buffers end as the reference |
| `PluginCodec.RoundTrip` | perception/custom-parser/deepstream-yolo/nvdsinfer_custom_impl_Yolo/yoloPlugins.cpp:56-92 | reading what was written, followed by any bytes, rebuilds the layer (list sizes modulo 2^32, no blob names) and leaves those bytes |
| `PluginCodec.RoundTripIsExact` | perception/custom-parser/deepstream-yolo/nvdsinfer_custom_impl_Yolo/yoloPlugins.cpp:56-92 | the layer comes back unchanged if and only if it has no blob names and its list sizes fit 32 bits |
| `PluginLayout.LayerLayout` | perception/custom-parser/deepstream-yolo/nvdsinfer_custom_impl_Yolo/yoloPlugins.cpp:136-166 | the written plugin byte by byte: five fields and the count in 28 bytes, then the tensors without gaps, each with its four fields, its anchors and its masks |
| `PluginLayout.TensorLayout` | perception/custom-parser/deepstream-yolo/nvdsinfer_custom_impl_Yolo/yoloPlugins.cpp:147-163 | the offsets of the fields and list elements of one tensor, masks in two's complement |
| `PluginLayout.ListLayout` | perception/custom-parser/deepstream-yolo/nvdsinfer_custom_impl_Yolo/yoloPlugins.cpp:154-162 | a list is its size modulo 2^32 and that many elements in order |
| `PluginCodec.OnlyWrittenIsRead` | perception/custom-parser/deepstream-yolo/nvdsinfer_custom_impl_Yolo/yoloPlugins.cpp:56-92 | whatever the reader accepts is the written form of the layer it returns |
| `PluginCodec.ReadTensorOf` | perception/custom-parser/deepstream-yolo/nvdsinfer_custom_impl_Yolo/yoloPlugins.cpp:67-91 | the same round trip for one tensor, anchors and mask lists included |
| `PluginCodec.TensorWasWritten` | perception/custom-parser/deepstream-yolo/nvdsinfer_custom_impl_Yolo/yoloPlugins.cpp:67-91 | an accepted tensor is the written form of the tensor returned |
| `PluginCodec.ValueOfBytes` | perception/custom-parser/deepstream-yolo/nvdsinfer_custom_impl_Yolo/yoloPlugins.cpp:29-38 | a little-endian integer is read back |
| `PluginCodec.BytesOfValue` | perception/custom-parser/deepstream-yolo/nvdsinfer_custom_impl_Yolo/yoloPlugins.cpp:29-38 | and written back |
| `PluginCodec.SerializationSize` | perception/custom-parser/deepstream-yolo/nvdsinfer_custom_impl_Yolo/yoloPlugins.cpp:109-134 | the announced size is the number of bytes written plus the size of list elements beyond 2^32 |
| `PluginCodec.NoSlack` | perception/custom-parser/deepstream-yolo/nvdsinfer_custom_impl_Yolo/yoloPlugins.cpp:129-130 | which is nothing exactly when all list sizes fit 32 bits |
| `PluginCodec.WriteList` | perception/custom-parser/deepstream-yolo/nvdsinfer_custom_impl_Yolo/yoloPlugins.cpp:154-162 | a list is its size and its elements, written through the cursor, and nothing after the cursor changes |
| `PluginCodec.WriteTensor` | perception/custom-parser/deepstream-yolo/nvdsinfer_custom_impl_Yolo/yoloPlugins.cpp:147-163 | one tensor through the cursor |
| `PluginCodec.Serialize` | perception/custom-parser/deepstream-yolo/nvdsinfer_custom_impl_Yolo/yoloPlugins.cpp:136-166 | the buffer starts with the written form of the layer, the rest of it is unchanged, and the cursor is the written size |
| `PluginCodec.TakeList` | perception/custom-parser/deepstream-yolo/nvdsinfer_custom_impl_Yolo/yoloPlugins.cpp:74-88 | the loop reads a size and that many elements, or runs out of data exactly when the format does |
| `PluginCodec.Deserialize` | perception/custom-parser/deepstream-yolo/nvdsinfer_custom_impl_Yolo/yoloPlugins.cpp:56-92 | the constructor reads the format, and reads past its data exactly when the format does |
| `Base64.RoundTrip` | perception/include/base64.hpp:505-552 | decoding the encoding of any byte sequence gives it back, and the encoding has 4 * ceil(n / 3) characters |
| `Base64.EncodeIsBitStream` | perception/include/base64.hpp:513-550 | the characters are the 6-bit digits of the data's bit stream completed with zero bits, then padding (section 4 of RFC 4648) |
| `Base64.BadCharTest` | perception/include/base64.hpp:599-609 | one comparison of the OR of four table entries is the check of each character |
| `Base64.BadCharTestPadded` | perception/include/base64.hpp:631-663 | the same for the three and two characters of a padded block |
| `Base64.AcceptsExactly` | perception/include/base64.hpp:571-674 | exactly the texts of whole blocks of alphabet characters ending in at most two padding signs are accepted |
| `Base64Decoding.DecodeIsBitStream` | perception/include/base64.hpp:593-669 | an accepted text with p padding signs gives three bytes for four characters less p, whose bits are the 6-bit digits of the characters in order; the bits left in the last digit are ignored |
| `Base64Decoding.ErrorsExactly` | perception/include/base64.hpp:571-591 | which of the three errors a text gives: its size first, then more than two padding signs among the last four characters, then a character out of place |
| `Base64.ReencodeExactly` | perception/include/base64.hpp:571-676 | encoding an accepted text's bytes gives the text back if and only if its unused trailing bits are zero (section 3.5 of RFC 4648) |
| `Base64.PackSplits` | perception/include/base64.hpp:513-523 | the four digits of three bytes, packed by the decoding tables, are the three bytes |
| `Base64.SplitPacks` | perception/include/base64.hpp:599-619 | and the bytes of four packed digits have those digits |
| `Base64.BlockRoundTrip` | perception/include/base64.hpp:513-523 | a block of three bytes comes back |
| `Base64.TailRoundTrip` | perception/include/base64.hpp:525-550 | the one or two last bytes come back through their padding case |
| `Base64.GroupsReencode` | perception/include/base64.hpp:593-620 | decoded blocks without padding are encoded to the same characters |
| `Base64.TailReencode` | perception/include/base64.hpp:622-669 | a padded block is encoded to itself if and only if the bits its bytes do not use are zero |
| `Base64.EncodeInto` | perception/include/base64.hpp:494-553 | the buffer loop and the three tail cases write the encoding |
| `Base64.CountLastFour` | perception/include/base64.hpp:580-581 | the padding signs among the last four characters are counted |
| `Base64.DecodeBlocks` | perception/include/base64.hpp:593-620 | the loop decodes whole blocks or reports an invalid character |
| `Base64.DecodeLast` | perception/include/base64.hpp:622-674 | the switch decodes the padded block |
| `Base64.DecodeInto` | perception/include/base64.hpp:565-677 | the buffer holds the decoded bytes, or the exception of the first failed test is thrown |
| `CfgParser.TrimStrips` | perception/custom-parser/deepstream-yolo/nvdsinfer_custom_impl_Yolo/utils.cpp:32-50 | trim takes off the white space around a trimmed text, all of it and nothing else |
| `CfgParser.LinesOfText` | perception/custom-parser/deepstream-yolo/nvdsinfer_custom_impl_Yolo/yolo.cpp:515 | getline gives back the lines of a text |
| `CfgParser.LinesWithoutLastNewline` | perception/custom-parser/deepstream-yolo/nvdsinfer_custom_impl_Yolo/yolo.cpp:515 | also when the last line, not empty, has no newline |
| `CfgParser.RoundTrip` | perception/custom-parser/deepstream-yolo/nvdsinfer_custom_impl_Yolo/yolo.cpp:505-539 | any nonempty list of blocks, written with any white space, comments and skipped lines, is parsed to the same blocks |
| `CfgParser.EveryListIsRead` | perception/custom-parser/deepstream-yolo/nvdsinfer_custom_impl_Yolo/yolo.cpp:505-539 | every nonempty list of blocks, as maps with trimmed types, keys and values, is the parse of a text |
| `CfgParser.NoiseAnywhere` | perception/custom-parser/deepstream-yolo/nvdsinfer_custom_impl_Yolo/yolo.cpp:516-517 | an empty line, a comment or a line that starts with a space changes nothing, wherever it is inserted in any file |
| `CfgParser.StepHeader` | perception/custom-parser/deepstream-yolo/nvdsinfer_custom_impl_Yolo/yolo.cpp:520-531 | a section header closes the open block and opens one of that type |
| `CfgParser.StepEntry` | perception/custom-parser/deepstream-yolo/nvdsinfer_custom_impl_Yolo/yolo.cpp:532-537 | an entry line adds its key and value, both trimmed |
| `CfgParser.StepUnusual` | perception/custom-parser/deepstream-yolo/nvdsinfer_custom_impl_Yolo/yolo.cpp:519-537 | lines that are neither a closed header nor an entry with a key: no equal sign, no key, white space alone, an unclosed header, a hash sign after white space |
| `CfgParser.FirstValueStays` | perception/custom-parser/deepstream-yolo/nvdsinfer_custom_impl_Yolo/yolo.cpp:536 | whatever lines follow, the first value of a key stays its value in its block |
| `CfgParser.GetLine` | perception/custom-parser/deepstream-yolo/nvdsinfer_custom_impl_Yolo/yolo.cpp:515 | one getline takes the first line of what is left |
| `CfgParser.ParseConfigFile` | perception/custom-parser/deepstream-yolo/nvdsinfer_custom_impl_Yolo/yolo.cpp:505-539 | the loop over the lines computes the parse of the text |
| `CfgNumbers.StoiOfShow` | perception/custom-parser/deepstream-yolo/nvdsinfer_custom_impl_Yolo/yolo.cpp:333 | stoi undoes to_string for every int |
| `CfgMeaning.StoiExactly` | perception/custom-parser/deepstream-yolo/nvdsinfer_custom_impl_Yolo/yolo.cpp:333 | stoi of any text: white space, a sign and the digits that follow are read and the rest is ignored; without a digit or out of range it throws |
| `CfgMeaning.LayersExactly` | perception/custom-parser/deepstream-yolo/nvdsinfer_custom_impl_Yolo/layers/route_layer.cpp:17-30 | the list of a route layer, of any text: the numbers between the commas in order, if each is one, without white space after the last comma |
| `CfgNumbers.LayerListRoundTrip` | perception/custom-parser/deepstream-yolo/nvdsinfer_custom_impl_Yolo/layers/route_layer.cpp:17-30 | a comma-separated list with any white space is read back |
| `CfgNumbers.ParseLayers` | perception/custom-parser/deepstream-yolo/nvdsinfer_custom_impl_Yolo/layers/route_layer.cpp:17-30 | the find loop reads the list of the format, or throws exactly when a number does not parse |
| `CfgBlocks.ParseList` | perception/custom-parser/deepstream-yolo/nvdsinfer_custom_impl_Yolo/yolo.cpp:577-589 | the loop that erases from the front reads the comma-separated list, or throws exactly when an element does not parse |
| `CfgBlocks.ListRoundTrip` | perception/custom-parser/deepstream-yolo/nvdsinfer_custom_impl_Yolo/yolo.cpp:576-606 | a list written with commas is read back, whatever reads its elements |
| `CfgBlocks.StoulOfShow` | perception/custom-parser/deepstream-yolo/nvdsinfer_custom_impl_Yolo/yolo.cpp:550-552 | stoul undoes to_string for every unsigned long |
| `CfgMeaning.StoulExactly` | perception/custom-parser/deepstream-yolo/nvdsinfer_custom_impl_Yolo/yolo.cpp:550-552 | stoul of any text: the same, up to 2^64 - 1, where a minus sign counts down from 2^64 |
| `CfgMeaning.DigitsAreDecimal` | perception/custom-parser/deepstream-yolo/nvdsinfer_custom_impl_Yolo/yolo.cpp:550-552 | each further digit is worth its value after ten times the number so far |
| `CfgMeaning.ListExactly` | perception/custom-parser/deepstream-yolo/nvdsinfer_custom_impl_Yolo/yolo.cpp:576-606 | a list of any text is read exactly when each text between commas parses, and has their values in order |
| `CfgMeaning.MaskIs` | perception/custom-parser/deepstream-yolo/nvdsinfer_custom_impl_Yolo/yolo.cpp:597 | a mask is a signed int congruent to its number modulo 2^32 |
| `CfgBlocks.ParseDetection` | perception/custom-parser/deepstream-yolo/nvdsinfer_custom_impl_Yolo/yolo.cpp:558-616 | the fields and the record of a yolo or region block, and its asserts and exceptions |
| `CfgBlocks.ParseConfigBlocks` | perception/custom-parser/deepstream-yolo/nvdsinfer_custom_impl_Yolo/yolo.cpp:541-618 | the loop over the blocks computes what they say together, and fails exactly when one of them is malformed |
| `CfgBlocks.RecordPerDetection` | perception/custom-parser/deepstream-yolo/nvdsinfer_custom_impl_Yolo/yolo.cpp:558-615 | one record for each yolo or region block |
| `CfgMeaning.AcceptedExactly` | perception/custom-parser/deepstream-yolo/nvdsinfer_custom_impl_Yolo/yolo.cpp:541-618 | a file is accepted if and only if each block has a type, each net block its three numbers and each detection block what its keys need to parse |
| `CfgMeaning.NumbersAreLast` | perception/custom-parser/deepstream-yolo/nvdsinfer_custom_impl_Yolo/yolo.cpp:545-572 | width, height, channels and letter_box are the numbers of the last net block that has the key, classes and new_coords those of the last detection block that has it, and zero without one |
| `CfgMeaning.RecordsInOrder` | perception/custom-parser/deepstream-yolo/nvdsinfer_custom_impl_Yolo/yolo.cpp:558-615 | record k is that of the k-th detection block: its anchors, its masks or none, its scale_x_y or 1, and as many boxes as masks or as its num says |
| `CfgBlocks.SizeIsOfLastNet` | perception/custom-parser/deepstream-yolo/nvdsinfer_custom_impl_Yolo/yolo.cpp:545-553 | the input size is that of the last net block, and zero without one |
| `CfgBlocks.BoxesAreMasks` | perception/custom-parser/deepstream-yolo/nvdsinfer_custom_impl_Yolo/yolo.cpp:613 | the number of boxes of a cell is the number of masks, if there are any |
| `LayerRefs.ResolveExactly` | perception/custom-parser/deepstream-yolo/nvdsinfer_custom_impl_Yolo/yolo.cpp:331-338 | what the wrapping unsigned arithmetic accepts and picks, in plain integers, for every int `from` and every number of outputs |
| `LayerRefs.PositiveFrom` | perception/custom-parser/deepstream-yolo/nvdsinfer_custom_impl_Yolo/yolo.cpp:334-335 | a positive `from` comes out of the wrapping conversion as an index |
| `LayerRefs.SameRuleAsRoute` | perception/custom-parser/deepstream-yolo/nvdsinfer_custom_impl_Yolo/layers/route_layer.cpp:33-38 | with one block without output before the layer an accepted `from` picks what a route layer picks, and every output but the last is accepted |
| `LayerRefs.OffByOneWithoutHeader` | perception/custom-parser/deepstream-yolo/nvdsinfer_custom_impl_Yolo/yolo.cpp:348-355 | without such a block a negative `from` picks the output one before the route layer's |
| `WeightCursor.FoldIsNormalisation` | perception/custom-parser/deepstream-yolo/nvdsinfer_custom_impl_Yolo/layers/convolutional_layer.cpp:130-149 | for each channel scale * y + shift is the batch normalisation of y by the values read at offsets p, p + F, p + 2F and p + 3F |
| `WeightCursor.PartsByIndex` | perception/custom-parser/deepstream-yolo/nvdsinfer_custom_impl_Yolo/layers/convolutional_layer.cpp:61-115 | of the weights from p on, with F filters: 4F for the scale layer if normed, then F for the bias if biased, then the kernel, each element at its index |
| `WeightCursor.ReadSegment` | perception/custom-parser/deepstream-yolo/nvdsinfer_custom_impl_Yolo/layers/convolutional_layer.cpp:107-110 | a loop takes the next n weights, or reads past the end exactly when fewer are left |
| `WeightCursor.FoldNorm` | perception/custom-parser/deepstream-yolo/nvdsinfer_custom_impl_Yolo/layers/convolutional_layer.cpp:130-146 | the folding loops compute the scale layer of the values read |
| `WeightCursor.ReadNorm` | perception/custom-parser/deepstream-yolo/nvdsinfer_custom_impl_Yolo/layers/batchnorm_layer.cpp:29-44 | biases, scales, means and variances are taken in this order |
| `WeightCursor.ReadLayer` | perception/custom-parser/deepstream-yolo/nvdsinfer_custom_impl_Yolo/layers/convolutional_layer.cpp:61-115 | a layer takes exactly the count of its plan from the cursor: norm, bias and kernel, each element from its index |
| `NetworkBuilder.ConvolutionCounts` | perception/custom-parser/deepstream-yolo/nvdsinfer_custom_impl_Yolo/layers/convolutional_layer.cpp:24-53 | the number of weights of a convolution, and each part of its plan, in terms of its keys and input channels |
| `NetworkBuilder.DeconvolutionCounts` | perception/custom-parser/deepstream-yolo/nvdsinfer_custom_impl_Yolo/layers/deconvolutional_layer.cpp:29-42 | the number of weights of a deconvolution, and each part of its plan, in terms of its keys and input channels |
| `NetworkBuilder.BatchNormCounts` | perception/custom-parser/deepstream-yolo/nvdsinfer_custom_impl_Yolo/layers/batchnorm_layer.cpp:18-32 | four weights a filter, for every batchnorm block with a supported activation |
| `NetworkBuilder.ImplicitCounts` | perception/custom-parser/deepstream-yolo/nvdsinfer_custom_impl_Yolo/layers/implicit_layer.cpp:17-29 | one weight a filter, for every implicit block |
| `NetworkBuilder.CursorIsTotal` | perception/custom-parser/deepstream-yolo/nvdsinfer_custom_impl_Yolo/yolo.cpp:287-454 | weightPtr is the sum of the counts of the layers so far |
| `NetworkBuilder.EveryWeightOnce` | perception/custom-parser/deepstream-yolo/nvdsinfer_custom_impl_Yolo/yolo.cpp:456-459 | in a successful load every weight is read by exactly one layer |
| `NetworkBuilder.DetectionsAreCounted` | perception/custom-parser/deepstream-yolo/nvdsinfer_custom_impl_Yolo/yolo.cpp:558-567 | the detection blocks counted before the build are those the build finds, so m_YoloTensors.at never throws and the counts match |
| `NetworkBuilder.EdgesGoBack` | perception/custom-parser/deepstream-yolo/nvdsinfer_custom_impl_Yolo/yolo.cpp:331-403 | every layer reads the network input and results of strictly earlier blocks only |
| `NetworkBuilder.JoinPicks` | perception/custom-parser/deepstream-yolo/nvdsinfer_custom_impl_Yolo/yolo.cpp:331-382 | every accepted `from` of a shortcut, sam or channels layer: at most one block without output before it; a positive `from` picks what a route layer picks, and a negative one does if and only if exactly one such block came before |
| `NetworkGraph.ReadsExactly` | perception/custom-parser/deepstream-yolo/nvdsinfer_custom_impl_Yolo/yolo.cpp:287-454 | in every built graph: convolutional, deconvolutional, batchnorm, upsample, pooling, reorg and detection blocks read exactly what the block before hands on, through net, dropout and detection blocks; constants read nothing; references that and the entry they name; routes the entries they name, in the order of their list |
| `NetworkGraph.VariablesAre` | perception/custom-parser/deepstream-yolo/nvdsinfer_custom_impl_Yolo/yolo.cpp:282-286 | previous and tensorOutputs are what the blocks so far hand on, as read off the finished graph |
| `NetworkGraph.WeightsOfBlock` | perception/custom-parser/deepstream-yolo/nvdsinfer_custom_impl_Yolo/yolo.cpp:291-327 | the layer of block i takes weights exactly if its type does, from where the layers before it end, as its keys and the channels of what it is handed call for, each part at its index |
| `NetworkGraph.CompiledExactly` | perception/custom-parser/deepstream-yolo/nvdsinfer_custom_impl_Yolo/yolo.cpp:287-454 | a block compiles if and only if its keys, its references and the dimensions it is handed allow it and TensorRT makes its layer, if it adds one |
| `NetworkGraph.DetectionSizesRecord` | perception/custom-parser/deepstream-yolo/nvdsinfer_custom_impl_Yolo/yolo.cpp:431-443 | the k-th detection block names record k after its type and position and gives it axes 2 and 3 of what it is handed as height and width |
| `NetworkBuilder.QuotientIsTowardZero` | perception/custom-parser/deepstream-yolo/nvdsinfer_custom_impl_Yolo/layers/convolutional_layer.cpp:53 | integer division rounds toward zero for all signs |
| `NetworkBuilder.OutputsFollowHeader` | perception/custom-parser/deepstream-yolo/nvdsinfer_custom_impl_Yolo/yolo.cpp:287-454 | with one leading net block and no dropout, tensorOutputs has i - 1 entries at block i and entry k is the result of block k + 1 |
| `NetworkBuilder.OutputsOfOps` | perception/custom-parser/deepstream-yolo/nvdsinfer_custom_impl_Yolo/yolo.cpp:287-454 | tensorOutputs has an entry for each block except net and dropout blocks |
| `NetworkBuilder.BuildLayers` | perception/custom-parser/deepstream-yolo/nvdsinfer_custom_impl_Yolo/yolo.cpp:287-454 | the loop over the blocks builds the graph, reads its weights and sizes the records, and stops only when a block does not compile or the weights run out |
| `NetworkBuilder.BuildYoloNetwork` | perception/custom-parser/deepstream-yolo/nvdsinfer_custom_impl_Yolo/yolo.cpp:269-503 | for any answers of TensorRT: the build succeeds exactly when TensorRT takes the input, every block compiles and gets its layer, the counts add up to the weight file, and the plugin accepts the input size and is made; it then yields that graph, its weights and the plugin |
| `WeightFile.LoadWeights` | perception/custom-parser/deepstream-yolo/nvdsinfer_custom_impl_Yolo/utils.cpp:71-112 | the loop over the stream reads the weights of the file, or fails exactly when its format does |
| `WeightFile.WeightsExactly` | perception/custom-parser/deepstream-yolo/nvdsinfer_custom_impl_Yolo/utils.cpp:84-101 | a file longer than its header loads exactly when whole floats follow the header, and its weights are those, never none |
| `WeightFile.ContainsExactly` | perception/custom-parser/deepstream-yolo/nvdsinfer_custom_impl_Yolo/utils.cpp:75-84 | a part is found in a name exactly when it stands somewhere in it |
| `WeightFile.HeadersExactly` | perception/custom-parser/deepstream-yolo/nvdsinfer_custom_impl_Yolo/utils.cpp:75-101 | 16 bytes of header for yolov2 but not yolov2-tiny, 20 for all others; no suffix, no weights; a file that ends within its header has none |
| `ModelLoader.LoadModel` | perception/custom-parser/deepstream-yolo/nvdsinfer_custom_impl_Yolo/yolo.cpp:104-105 | a network loads exactly when its weight file does, its blocks are well formed, the last net block gives a positive width and height, and the build succeeds |
| `NetworkGraph.LoadsExactly` | perception/custom-parser/deepstream-yolo/nvdsinfer_custom_impl_Yolo/yolo.cpp:269-503 | when a file whose blocks compile loads: well-formed blocks, an input of the last net block's channels, height and width that TensorRT takes, no weight too few or too many, a plugin that is made |
| `NetworkGraph.PluginOfFile` | perception/custom-parser/deepstream-yolo/nvdsinfer_custom_impl_Yolo/yolo.cpp:461-475 | the plugin of a loaded file: its numbers are those of the last blocks that have the keys, record k that of the k-th detection block, and input k the tensor that block is handed |
| `ModelLoader.LateNetIsOffByOne` | perception/custom-parser/deepstream-yolo/nvdsinfer_custom_impl_Yolo/yolo.cpp:348-355 | there are files that load, with weights, a detection layer and consistent shapes, in which a `from` of -2 picks output 0 where a route layer's -2 is output 1 |
| `ModelLoader.ReadableExactly` | perception/custom-parser/deepstream-yolo/nvdsinfer_custom_impl_Yolo/yoloForward.cu:33-35 | the kernels stay within the anchors of a loaded plugin if and only if in every detection block each mask names a pair of anchors or, without masks, there is a pair for each box |
| `ModelLoader.LoadedPluginRuns` | perception/custom-parser/deepstream-yolo/nvdsinfer_custom_impl_Yolo/yoloPlugins.cpp:203-271 | a loaded plugin whose lists fit, with right shapes and inputs of its size, is one the theorems about enqueue speak of |
| `NetworkBuilder.ConvIsRefused` | perception/custom-parser/deepstream-yolo/nvdsinfer_custom_impl_Yolo/layers/convolutional_layer.cpp:18 | a block of type conv, which the dispatch of the build lets through, fails |
| `NetworkBuilder.SetSize` | perception/custom-parser/deepstream-yolo/nvdsinfer_custom_impl_Yolo/yolo.cpp:432-443 | a detection block sets name and grid size of the next record and of no other |
| `NetworkBuilder.ResolvedAreOutputs` | perception/custom-parser/deepstream-yolo/nvdsinfer_custom_impl_Yolo/layers/route_layer.cpp:31-36 | each number of a route layer picks the output of its index |
| `DenseTensor.TransposeMoves` | perception/custom-parser/deepstream-yolo/nvdsinfer_custom_impl_Yolo/layers/reorg_layer.cpp:71-73 | a transposition moves the element at an index to the permuted index |
| `DenseTensor.FlatUnique` | perception/custom-parser/deepstream-yolo/nvdsinfer_custom_impl_Yolo/layers/reorg_layer.cpp:64-73 | a position in row-major order has one index |
| `DenseTensor.MergeAxes` | perception/custom-parser/deepstream-yolo/nvdsinfer_custom_impl_Yolo/layers/reorg_layer.cpp:75-81 | reading the last two axes as one keeps positions |
| `DenseTensor.SliceTakes` | perception/custom-parser/deepstream-yolo/nvdsinfer_custom_impl_Yolo/layers/reorg_layer.cpp:35-39 | a strided slice takes the element at start + index * stride |
| `Reorg.ReorgMoves` | perception/custom-parser/deepstream-yolo/nvdsinfer_custom_impl_Yolo/layers/reorg_layer.cpp:63-105 | the four reshapes and transpositions together move element (c, h s + j1, w s + j2) of the input, reread as (C / s^2) x (H s) x (W s), to ((j1 s + j2) (C / s^2) + c) H W + h W + w in its batch |
| `Reorg.ReorgExactly` | perception/custom-parser/deepstream-yolo/nvdsinfer_custom_impl_Yolo/layers/reorg_layer.cpp:63-105 | the output has shape [N, C s^2, H / s, W / s]; read as [N, s, s, C / s^2, H, W] its element (n, j1, j2, c, h, w) is element (n, c, h, j1, w, j2) of the input read as [N, C / s^2, H, s, W, s] |
| `Reorg.PlacesAreApart` | perception/custom-parser/deepstream-yolo/nvdsinfer_custom_impl_Yolo/layers/reorg_layer.cpp:63-105 | no two elements have the same source or the same target |
| `Reorg.EveryPositionHasAPlace` | perception/custom-parser/deepstream-yolo/nvdsinfer_custom_impl_Yolo/layers/reorg_layer.cpp:63-105 | every position of the input is a source and every position of the output a target, so the layer permutes the data |
| `Reorg.ReorgAccepts` | perception/custom-parser/deepstream-yolo/nvdsinfer_custom_impl_Yolo/layers/reorg_layer.cpp:63-105 | the shapes fit exactly when s^2 divides the channels and s the height and width |
| `Reorg3d.Reorg3dAccepts` | perception/custom-parser/deepstream-yolo/nvdsinfer_custom_impl_Yolo/layers/reorg_layer.cpp:26-48 | the slices stay inside the input exactly when the stride is at least 2 |
| `Reorg3d.PartMoves` | perception/custom-parser/deepstream-yolo/nvdsinfer_custom_impl_Yolo/layers/reorg_layer.cpp:35-61 | the element (2i or 2i + 1, 2j or 2j + 1) that slice k takes is in the k-th part of the result |
| `Reorg3d.Reorg3dExactly` | perception/custom-parser/deepstream-yolo/nvdsinfer_custom_impl_Yolo/layers/reorg_layer.cpp:26-61 | the output has shape [4 N, C, H / s, W / s]; its element (k N + n, c, i, j) is element (n, c, i s + a, j s + b) of the input, with (a, b) = (0, 0), (0, 1), (1, 0), (1, 1) for k = 0 to 3 |
| `Reorg3d.PickedOnce` | perception/custom-parser/deepstream-yolo/nvdsinfer_custom_impl_Yolo/layers/reorg_layer.cpp:31-36 | no element is taken by two slices or twice by one |
| `Reorg3d.NothingLost` | perception/custom-parser/deepstream-yolo/nvdsinfer_custom_impl_Yolo/layers/reorg_layer.cpp:31-36 | every element is taken if and only if the stride is 2 and both sides are even |
| `PresenceThreads.AlertsAlternate` | backend/main.py:46-67 | under every interleaving of the statements of the two threads each person's alerts are entry, exit, entry, ... |
| `PresenceThreads.NextKeepsInv` | backend/main.py:46-67 | every statement keeps the windows of test, alert and assignment of the two threads apart |
| `PresenceThreads.NeverStuck` | backend/main.py:46-67 | no statement of either thread ever fails on a missing key |
| `PresenceThreads.PassMeetsEveryone` | backend/main.py:64-65 | everyone known when the checker lists the dictionary is tested before it reads the clock again, whatever the message thread does meanwhile |
| `PresenceThreads.TimeTestDecides` | backend/main.py:65 | the time test leads to an exit exactly after more than four seconds without an update |
| `PresenceThreads.StaleExitExactly` | backend/main.py:63-66 | in every run, an exit about to be announced is for a person no longer inactive if and only if an update of that person was stored after the checker's test and the last one is within the threshold of the clock it read |
| `PresenceThreads.ExitWithoutUpdateIsRight` | backend/main.py:63-66 | without an update between test and alert the person announced is inactive |
| `PresenceThreads.ExitMayIgnoreUpdate` | backend/main.py:65-66 | a run in which that condition occurs |
| `PresenceTiming.Backend.OnMessage` | backend/main.py:46-54 | a message sets the time, and announces an entry exactly when the person was not inside |
| `PresenceTiming.Backend.Sweep` | backend/main.py:63-68 | a sweep announces each inactive person once and no other, and changes nothing else |
| `PresenceTiming.ExitByDeadline` | backend/main.py:61-69 | a person silent for longer than the threshold plus the interval has been announced as gone, in time |
| `PresenceTiming.ExitIsJustified` | backend/main.py:65-66 | every exit alert follows a silence longer than the threshold and no longer than the threshold plus the interval |
| `PresenceTiming.EntryExactly` | backend/main.py:52-54 | a message announces an entry exactly when the person was not heard of before or has been announced as gone since last heard of, and nothing else |
| `PresenceTiming.EntryIsJustified` | backend/main.py:52-54 | every entry alert is that of a message, at its time |
| `PresenceTiming.TimedInv` | backend/main.py:61-69 | what is known of a person at every moment of a timed run |
| `Watchdog.CallsAlternate` | perception/src/perception.cpp:87-149 | in every run, whatever GStreamer answers, the calls for each stream alternate, delete first, and a stream with a bin is in NONE with at most 20 silent seconds, WAITING with at most 29, or ADD_STREAM with at most 20 or 30 |
| `Watchdog.EveryStateIsReached` | perception/src/perception.cpp:92-143 | each of those states is reached by a run |
| `Watchdog.PlayIsRun` | perception/src/perception.cpp:79-151 | the runs of that lemma are runs of the watchdog |
| `Watchdog.VisitKeepsInv` | perception/src/perception.cpp:92-148 | one turn of the loop keeps this for all streams |
| `Watchdog.PadsAreBalanced` | perception/src/Pipeline.cpp:1003-1010 | in every run in which state changes do not fail and bins and pads are granted, muxer pads and bins are exactly those of the streams re-added as often as deleted |
| `Watchdog.BalanceExactly` | perception/src/Pipeline.cpp:1047-1083 | a visit keeps that balance if and only if the delete it makes does not fail, or the re-add it makes gets its bin and pad |
| `Watchdog.OneBinPerStream` | perception/src/Pipeline.cpp:1004 | then there is at most one bin per stream in the pipeline |
| `Watchdog.Schedule` | perception/src/perception.cpp:93-135 | a stream without frames is deleted at silent ticks 21 + 31k and re-added at ticks 31 + 31k, and nothing else is called for it |
| `Watchdog.PhasesFollow` | perception/src/perception.cpp:93-135 | its state after any number of silent ticks |
| `Watchdog.CallsNeedSilence` | perception/src/perception.cpp:92-148 | in every run, whatever GStreamer answers, a stream is deleted or re-added only at a tick, and at least 21 ticks after its last frame |
| `Watchdog.SweepVisits` | perception/src/perception.cpp:87-149 | a sweep visits every stream once, and the visits do not disturb each other |
| `Watchdog.LostExactly` | perception/src/perception.cpp:124-135 | a visit loses a stream exactly when it re-adds it and no bin is made |
| `Watchdog.LostForGood` | perception/src/perception.cpp:92 | a stream without a bin never gets one again and nothing is called for it, in every run |
| `Watchdog.Pipeline.AddSources` | perception/src/perception.cpp:388-398 | the first round, with pad indices 0 to n - 1 in any order and good answers, attaches and counts all streams |
| `Watchdog.Pipeline.DeleteSource` | perception/src/Pipeline.cpp:1041-1084 | the pad and the bin go when the state change succeeds or is pending, and nothing changes otherwise |
| `Watchdog.Pipeline.AddSource` | perception/src/Pipeline.cpp:978-1039 | without a bin nothing changes; otherwise the fields, the bins and, if granted, the pads do; a linked first add is counted |
| `Watchdog.Pipeline.ConnectMuxer` | perception/src/Pipeline.cpp:458-493 | a pad is requested if the muxer does not have it, and stays when the link fails |
| `Watchdog.Pipeline.CheckStream` | perception/src/perception.cpp:92-148 | the branches of the loop body on the fields |
| `Watchdog.Pipeline.CheckPerformance` | perception/src/perception.cpp:79-151 | the loop visits the streams counted, in order, and no other |
| `MqttSender.SendMqttMessage` | perception/src/perception.cpp:938-991 | at most five attempts, exactly five if none is final, ending at the first final result; true exactly when the last attempt succeeded; one reconnect for each lost connection |
| `MqttSender.SendIsUnique` | perception/src/perception.cpp:942-988 | the number of attempts is determined by the results |
| `MqttSender.PublishedInOrder` | perception/src/perception.cpp:993-1010 | in every interleaving of probes and sender the objects published are the first ones pushed, each once and in order, and with the lock free the rest is the queue |
| `MqttSender.StepKeepsInv` | perception/src/perception.cpp:995-1010 | every statement of every thread keeps pushed = published + queue, up to the front that is sent and not yet popped |
| `MqttSender.FrontStays` | perception/src/perception.cpp:1000-1009 | only a success removes the front, also after a result whose message says that the packet is discarded |
| `MqttSender.NotStuck` | perception/src/perception.cpp:998-1009 | the sender always has a next step while it holds the lock |
| `BBoxDecode.ArrayRefinesList` | perception/custom-parser/deepstream-yolo/nvdsinfer_custom_impl_Yolo/nvdsparsebbox_Yolo_cuda.cu:40-113 | the array of the GPU, filtered in order by class threshold and size, is the list of the CPU, for both box forms |
| `BBoxDecode.BoxesInside` | perception/custom-parser/deepstream-yolo/nvdsinfer_custom_impl_Yolo/nvdsparsebbox_Yolo.cpp:38-74 | every box of the list is at least one by one and inside the network input, and confident enough for its class |
| `BBoxDecode.InsideIsExact` | perception/custom-parser/deepstream-yolo/nvdsinfer_custom_impl_Yolo/nvdsparsebbox_Yolo.cpp:90-100 | a box inside the network input keeps its corners, and in the centre form its centre and size |
| `BBoxDecode.ListExactly` | perception/custom-parser/deepstream-yolo/nvdsinfer_custom_impl_Yolo/nvdsparsebbox_Yolo.cpp:76-129 | the list in terms of the buffers: one object for each element, in order, that is confident enough and has a pixel inside the network input; the object is the set of points of the element's box that are inside the network input, with the element's score and class |
| `BBoxDecode.DecodedIsPart` | perception/custom-parser/deepstream-yolo/nvdsinfer_custom_impl_Yolo/nvdsparsebbox_Yolo.cpp:38-59 | an object of positive size, in the list or in the array, is its element's box cut with the network input |
| `BBoxDecode.OnePixelExactly` | perception/custom-parser/deepstream-yolo/nvdsinfer_custom_impl_Yolo/nvdsparsebbox_Yolo.cpp:61-69 | the size test passes exactly when the cut box has two points one pixel apart both ways |
| `BBoxDecode.FilteredAreKept` | perception/custom-parser/deepstream-yolo/nvdsinfer_custom_impl_Yolo/nvdsparsebbox_Yolo.cpp:61-74 | the list holds an object exactly when it is decoded and passes the tests |
| `BBoxDecode.DecodeTensorYolo` | perception/custom-parser/deepstream-yolo/nvdsinfer_custom_impl_Yolo/nvdsparsebbox_Yolo.cpp:76-129 | the loop yields what is kept of all objects, in order |
| `BBoxDecode.ConvertBBox` | perception/custom-parser/deepstream-yolo/nvdsinfer_custom_impl_Yolo/nvdsparsebbox_Yolo.cpp:38-59 | corners are clamped to the network input, then the sizes |
| `BBoxDecode.MinElement` | perception/custom-parser/deepstream-yolo/nvdsinfer_custom_impl_Yolo/nvdsparsebbox_Yolo_cuda.cu:132-133 | the threshold of the GPU is the smallest class threshold |
| `BBoxDecode.Launch` | perception/custom-parser/deepstream-yolo/nvdsinfer_custom_impl_Yolo/nvdsparsebbox_Yolo_cuda.cu:40-113 | for every interleaving of the stores of all threads each element is its thread's object |
| `BBoxDecode.ParseCustomYoloCuda` | perception/custom-parser/deepstream-yolo/nvdsinfer_custom_impl_Yolo/nvdsparsebbox_Yolo_cuda.cu:115-146 | the array has one element per output, each the object of its thread for the smallest threshold |
| `YoloDetections.ClassExactly` | perception/custom-parser/deepstream-yolo/nvdsinfer_custom_impl_Yolo/yoloForward_nc.cu:37-46 | a thread settles on a class if and only if it is not one of the new-coordinates kernel without a class value above zero |
| `YoloDetections.ThreadIsElement` | perception/custom-parser/deepstream-yolo/nvdsinfer_custom_impl_Yolo/nvdsparsebbox_Yolo.cpp:82-98 | the element of a batch that a decoder reads for a thread's slot is that thread's box, score and class |
| `YoloDetections.DecodableExactly` | perception/custom-parser/deepstream-yolo/nvdsinfer_custom_impl_Yolo/nvdsparsebbox_Yolo.cpp:82-88 | with a threshold for each class, every class the CPU decoder looks up in a batch of the finished buffers has a threshold if and only if every thread of the new-coordinates kernel has a class value above zero |
| `BBoxDecode.LaunchCovers` | perception/custom-parser/deepstream-yolo/nvdsinfer_custom_impl_Yolo/nvdsparsebbox_Yolo_cuda.cu:135-140 | every element has exactly one of the launched threads |

## Left out

- YoloEnqueue.Enqueue: assumes that no store leaves the buffers, where the source has undefined behaviour; for the shapes that share slots it says which threads a slot's results may come from; the schedule decides which (`YoloRaces.OrderMatters`).
- YoloThreads.EveryScheduleGivesReference: makes the same assumption; stores are atomic.
- YoloEnqueue.RunThread: runs a whole thread at once; the interleaving of stores is in `YoloThreads`.
- YoloLayout.BuildOutputSize: the 32-bit product of the source is assumed not to overflow.
- PluginCodec.SerializationSize: assumes that the total fits size_t.
- PluginCodec.Serialize: little-endian storage, as on the processors the system runs on.
- Base64.DecodeInto: the tables of big-endian machines, and the overloads that only convert types.
- Base64.EncodeInto: the tables are written as shifts of the alphabet's index instead of 256 literal entries.
- CfgParser.ParseConfigFile: the existence check of the file; `front()` of a line trimmed to nothing is taken to read the terminating zero.
- NetworkBuilder.BuildYoloNetwork: which layers TensorRT makes, and with what dimensions, is an input.
- NetworkGraph.ReadsExactly: strides, paddings, groups, axes and slice positions of the layers, which only pass into TensorRT.
- NetworkGraph.WeightsOfBlock: the count of a bias in TensorRT's record, which for a `bias` key other than 0 and 1 is not the number of values read.
- WeightFile.LoadWeights: the existence check of the file; whether a stream notices its end right after the header is an input.
- CfgBlocks.ParseConfigBlocks: what std::stof makes of a string is an input; m_InputSize, a product that nothing here reads, is not modelled.
- WeightCursor.FoldIsNormalisation: assumes that the deviation is not zero; floating-point division by zero is not modelled.
- WeightCursor.ReadSegment: a read past the end of the weights is an error in the model, where the source has undefined behaviour.
- Reorg.ReorgMoves: the batch dimension is a number; the dynamic batch size -1 of a slice layer is not modelled.
- Reorg3d.PartMoves: strides are positive.
- PresenceTiming.ExitByDeadline: a message or a sweep takes no time; the untimed interleaving is in `PresenceThreads`.
- Watchdog.CallsAlternate: runs start when all streams have been added once with pad indices 0 to n - 1; after a failure in that round the source reads fields of streams_ that were never set.
- Watchdog.Pipeline.DeleteSource: sending EOS and flush events to the pad.
- MqttSender.PublishedInOrder: shutdown of the sender thread, and the contents of messages.
- BBoxDecode.DecodeTensorYolo: classes must index the thresholds, where the source reads out of bounds otherwise (`YoloDetections.DecodableExactly` says when they do); NaN is not modelled.
- The values of `__expf`, `__powf` and `sqrt`, rounding and overflow of floats.
- CUDA memory management and streams, beyond which cells each thread reads and writes.
- Activation, pooling, upsample and slice layers, beyond their keys and their inputs: calls into TensorRT.
- Engine building, calibration and the ONNX path: calls into TensorRT.
- GStreamer element creation, pads, bus messages and the RTSP server: wrappers over libraries.
- Redis, image writing, JSON messages, Twilio, logging and command-line flags: input and output only.
- StreamCheckerTask: its body is commented out.
