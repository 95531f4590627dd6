# A model of the AML interpreter, the inflate decoder and the kernel's scheduler and allocator

The project models the algorithmic core of the kernel's libraries and proves what their documentation,
their assertions and the standards they follow promise.

- **AML interpreter** (`AmlMachine`, `AmlAlignment`, `AmlCapacity`, `AmlSyntax`, `AmlRefinement`,
  `AmlInterpreter`).  `AmlMachine` is the four-stack machine as a function from states to states,
  `AmlInterpreter` the same as an object that updates its stacks in place.  The stacks of every run
  are proved aligned and within their capacities.  On a structured fragment (integer constants, Locals
  and Args, Store, arithmetic and logic operators, If, Else, While, Break, Return and calls), encoded
  as AML, the machine ends exactly as a recursive evaluator on the syntax tree does.
- **Inflate decoder** (`Huffman`, `HuffmanTables`, `Inflate`, `InflateDecoder`, `Deflate`, `Zlib`).
  `Inflate` is the meaning of a bit stream, `InflateDecoder` the decoder over a bit buffer,
  `Deflate` an independent definition of the encodings of RFC 1951; `Zlib` puts them together.
- **Reference-counted objects** (`RefCount`, `Objects`, `Cloning`): variables and package slots over
  a heap of counted objects.
- **Hash table and namespace** (`HashTable`, `HashWalk`, `NameTable`, `NodeTables`, `Namespace`,
  `NameResolution`, `NameParsing`, `IntrusiveList`, `MethodNodes`, `AmlNamespace`).  `NodeTables` puts
  the child tables together to the namespace; `AmlNamespace` runs the interpreter over it.
- **Bit fields** (`BitStream`, `WordBits`, `FieldAccess`, `Fields`, `BufferFields`).
- **Mutex and event** (`Mutex`, `Event`): interleaved atomic steps of any number of threads.
- **Scheduler and allocator** (`RoundRobin`, `Scheduler`, `Malloc`).
- **Numerals** (`Numerals`): integers to strings and back.

`Bits` and `Wrappers` hold the arithmetic and the option type that the others share.

AML integers are 64 bits wide, as LAI intends; the `-m32` build's `base/include/stdint.h:5` makes
`uint64_t` 32 bits.  The address space of the allocator is a parameter of at most 32 bits, 2^32 for the
kernel; its requests have 64 bits (`base/include/stdint.h:7`) and its headers hold an int.  A panic or a
failed `LAI_ENSURE` is an outcome of its own, which stops a run.

## Checks proved unreachable

- In the interpreter (`lai/core/exec.c`): the stack and operand checks of `lai_exec_process`, among
  them those at lines 1455, 1583, 1655, 1726, 1758 and 1793, and the final ones at 3651-3653 and
  3711-3714; the panic for operands left
  before an implicit return stays reachable (1421).
- In the stacks (`lai/core/exec_impl.h`): the capacity checks of the push functions at lines 250,
  303, 346 and 411, unless a BankField is parsed.
- In the hash table (`lai/core/util-hash.h`): lines 75 and 83, and those of the chain functions.
- In name resolution (`lai/core/ns.c`): the checks on alias targets and on the root; in the cleanup of
  a method the two panics of `lai_uninstall_nsnode`.
- In the mutex and the event (`lai/core/exec_impl.h`): all assertions but the overflow guard.

## Findings

What the code does not do, each with the exact condition.

- A buffer field at a bit offset that is no multiple of 8 is read wrongly
  (`BufferFields.UnalignedRead`, `BufferFields.ReadsRight`).
- A dotted path with a segment of fewer than four characters before the last one is never found,
  although the comment at `lai/core/ns.c:590` speaks of padding (`NameResolution.PaddedAlikeIff`).
- A BankField stops the interpreter exactly when the operand stack is one short of full
  (`AmlCapacity.BankFitsIff`).
- `malloc` steps by header-sized units modulo 2^32, so in a large region a request that passes the end
  check wraps the walk around, and the third request's header lies inside the first one.  For requests
  of no more than the end of the region, exactly the regions in which the largest admitted request
  stays below 2^32 are safe (`Malloc.NeverOverlapsIff`); with 28-byte headers and 512 MB they are not.
- A request near 2^64 overflows the end check of `malloc` and is granted; the walk then goes on inside
  or before the memory granted (`Malloc.LargestIsGranted`).  With such requests headers stay apart only
  in the regions of `Malloc.AlwaysApartIff`, which are fewer (`Malloc.FitsButUnsafe`).
- `free` of a block that was handed out a second time does nothing (`Malloc.Allocator.Free`).
- The 16-digit string that an integer converts to is read back as decimal by `lai_obj_to_integer`, so
  only integers below ten survive (`Numerals.UnmarkedHex`); `lai_mutate_integer` reads it correctly.

## Model

| member | source | states |
|---|---|---|
| `AmlAlignment.TurnKeepsAlignment` | lai/core/exec.c:1378-1869 | One turn of the interpreter on aligned stacks gives aligned stacks or a stop that is no internal assertion: contexts belong to Method and Populate items, blocks to the items that own one, operand frames are nested, and no item holds more operands than it needs |
| `AmlAlignment.RunKeepsAlignment` | lai/core/exec.c:1314-1337 | Every state that any bytecode reaches from an aligned state is aligned, and no internal assertion fails in the run |
| `AmlAlignment.ReduceNeverChecks` | lai/core/exec.c:206-1311 | Reduction of an integer operator whose operands were parsed in its modes never meets an operand of the wrong kind |
| `AmlAlignment.PopulateEndsClean` | lai/core/exec.c:3626-3655 | Whatever the table contains, a run of lai_populate that ends leaves all four stacks empty, so its three checks hold |
| `AmlAlignment.EvalEndsWithOneResult` | lai/core/exec.c:3658-3736 | Whatever the method contains, an evaluation that ends leaves empty stacks and exactly one operand, an object |
| `AmlCapacity.ParseGrows` | lai/core/exec.c:1918-3624 | Parsing grows each stack by no more than the slots it has reserved, except that a BankField pushes two operands |
| `AmlCapacity.TurnGrows` | lai/core/exec.c:1378-1869 | No turn pushes more on a stack than it has reserved or popped, unless it parses a BankField |
| `AmlCapacity.RunFits` | lai/core/exec_impl.h:227-416 | In every run without a BankField no stack outgrows its capacity, tracked as the code doubles it, so the capacity checks of the push functions cannot fail |
| `AmlCapacity.BankFitsIff` | lai/core/exec_impl.h:398-406 | A BankField fits if and only if the operand stack was not exactly one short of full: two slots are asked for and one is secured |
| `AmlRefinement.PkgDecode` | lai/core/exec.c:1339-1369 | Every package length of one to four bytes (section 20.2.4 of the ACPI specification) decodes to the length of the package, itself included, and is consumed exactly |
| `AmlRefinement.SimExpr` | lai/core/exec.c:1918-3624 | From any state that wants an expression, running its encoding gives the value, the variables or the stop of the recursive evaluator, pushes exactly one operand if one is wanted, leaves what is below untouched and advances by the encoded length |
| `AmlRefinement.SimStmt` | lai/core/exec.c:1722-1790 | The same for a statement: it falls through, breaks out of the loop, returns from the method or stops exactly as the evaluator says |
| `AmlRefinement.SimLoop` | lai/core/exec.c:1722-1753 | A While loop run by its stack item takes the iterations that the evaluator takes |
| `AmlRefinement.SimMethod` | lai/core/exec.c:1653-1721 | A method body run from its entry delivers to its caller the value that the evaluator computes |
| `AmlRefinement.EvaluatorToMachine` | lai/core/exec.c:1314-1337 | Whatever the evaluator computes, the machine computes; when the evaluator needs more fuel, the machine is still running after that many turns |
| `AmlRefinement.MachineToEvaluator` | lai/core/exec.c:1314-1337 | Whatever the machine ends with after n turns, the evaluator computes with fuel n + 1 |
| `AmlRefinement.MachineRefinesEvaluator` | lai/core/exec.c:1314-1869 | For every program of the fragment the machine ends with an outcome if and only if the evaluator reaches the verdict that stands for it; divergence included |
| `AmlInterpreter.Interpreter.Unwind` | lai/core/exec.c:1700-1717 | Popping n conditions and loops in place pops them with their blocks, or reports the failed check |
| `AmlInterpreter.Interpreter.SearchLoop` | lai/core/exec.c:2416-2434 | The search of Break and Continue finds the innermost loop with only conditions above it |
| `AmlInterpreter.Interpreter.SearchMethod` | lai/core/exec.c:1662-1679 | The search of Return finds the method below conditions and loops |
| `AmlInterpreter.Interpreter.Parse` | lai/core/exec.c:1918-3624 | Parsing one element in place changes the four stacks as the machine says |
| `AmlInterpreter.Interpreter.Process` | lai/core/exec.c:1378-1869 | Processing the top item in place changes the four stacks as the machine says |
| `AmlInterpreter.Interpreter.Run` | lai/core/exec.c:1314-1337 | The main loop follows the machine, keeps the stacks aligned and never reports a failed internal assertion |
| `Huffman.CodesFit` | base/include/ssfn.h:499-516 | A code-length list that the builder accepts never assigns more codes of a length than there are bit strings (section 3.2.2 of RFC 1951) |
| `Huffman.IndexInjective` | base/include/ssfn.h:527-543 | No two symbols share a place in the table sorted by length |
| `Huffman.MatchUnique` | base/include/ssfn.h:490-534 | At most one symbol has a code that begins the coming bits |
| `Huffman.MatchExists` | base/include/ssfn.h:572-584 | Between the limits of one code length and the next there is exactly a symbol of that length, found at the index the slow path computes |
| `Huffman.PrefixFree` | base/include/ssfn.h:490-534 | The codewords of every accepted code-length list are prefix-free |
| `HuffmanTables.FastEntryFinds` | base/include/ssfn.h:527-543 | An entry of the fast table names the symbol of at most 9 bits that matches the index, and is empty if there is none |
| `HuffmanTables.Table.Build` | base/include/ssfn.h:490-534 | The in-place table builder accepts exactly the lists that are no over-full code, and its tables then hold the canonical code |
| `HuffmanTables.Table.FillFast` | base/include/ssfn.h:534-540 | One short symbol enters every fast entry whose low bits are its reversed code, and no other |
| `Inflate.LengthTable` | base/include/ssfn.h:619-622 | The table of shortest lengths is 3 + 2^(e+2) and so on: the closed form by groups of four |
| `Inflate.DistTable` | base/include/ssfn.h:619-622 | The table of shortest distances agrees with the closed form by pairs |
| `Inflate.CopyBackRepeats` | base/include/ssfn.h:649-651 | Every byte of a copy, overlapping or not, equals the byte one distance before it |
| `Inflate.CopyBackUnique` | base/include/ssfn.h:649-651 | Nothing else does: a text that extends the output by a byte-by-byte repetition is the copy |
| `InflateDecoder.Decoder.FillBits` | base/include/ssfn.h:554-560 | Refilling leaves the position in the stream where it was and at least 25 bits in the buffer, which still denote the unread stream |
| `InflateDecoder.Decoder.Receive` | base/include/ssfn.h:562-570 | The bits received are the next n of the stream, and the position advances by n |
| `InflateDecoder.Decoder.DecodeSlow` | base/include/ssfn.h:572-584 | The slow path returns the symbol whose codeword comes next and consumes exactly its length, or fails if there is none |
| `InflateDecoder.Decoder.Decode` | base/include/ssfn.h:586-598 | Fast table and slow path together return the symbol whose codeword comes next and consume exactly its length |
| `InflateDecoder.Decoder.CopyBytes` | base/include/ssfn.h:649-651 | The memset for distance 1 and the general loop both give the repetition |
| `InflateDecoder.Decoder.HuffmanBlock` | base/include/ssfn.h:624-654 | The block loop follows the token semantics from its position and output to their end |
| `InflateDecoder.Decoder.ReadSizes` | base/include/ssfn.h:669-673 | The code-length code is read in the order of dezigzag: the length of symbol j stands where the inverse permutation says |
| `InflateDecoder.Decoder.ReadLengths` | base/include/ssfn.h:676-696 | The run-length loop reads the code lengths that the items stand for, or refuses an overrun |
| `InflateDecoder.Decoder.ComputeCodes` | base/include/ssfn.h:656-700 | A dynamic header gives the two codes it describes and their tables, or is refused exactly when one of them is |
| `InflateDecoder.Decoder.StoredBlock` | base/include/ssfn.h:702-726 | A stored block resumes on the next whole byte, whatever is left in the bit buffer, and copies its bytes |
| `InflateDecoder.Decoder.Inflate` | base/include/ssfn.h:740-761 | The decoder in place computes the block semantics of the whole stream |
| `Deflate.TokensRoundTrip` | base/include/ssfn.h:624-654 | Decoding the encoding of any tokens gives their expansion, consuming exactly the encoding; it fails exactly when a distance reaches back before the start |
| `Deflate.StoredRoundTrip` | base/include/ssfn.h:702-726 | Decoding an encoded stored block gives its data and ends behind it |
| `Deflate.HeaderRoundTrip` | base/include/ssfn.h:656-700 | Decoding the encoding of a dynamic header gives the code lengths that its items describe |
| `Deflate.FixedAccepted` | base/include/ssfn.h:729-738 | The fixed codes of section 3.2.6 are codes that the builder accepts |
| `Deflate.BlockRoundTrip` | base/include/ssfn.h:740-761 | Every block decodes to what it says, whichever encoding was chosen |
| `Deflate.StreamRoundTrip` | base/include/ssfn.h:740-761 | Decoding any sequence of encoded blocks gives the text they stand for, from any position |
| `Deflate.EverythingEncodes` | base/include/ssfn.h:740-761 | Every byte string has such an encoding |
| `Deflate.CopyEncodes` | base/include/ssfn.h:619-622 | Every length from 3 to 258 and every distance from 1 to 32768 has a token |
| `Zlib.ZlibDecode` | base/include/ssfn.h:763-772 | Decoding bytes gives the block semantics of their bits |
| `Zlib.Unzip` | base/include/ssfn.h:763-772 | End to end: the decoder on bytes that hold encoded blocks succeeds if and only if they stand for a text, and returns that text |
| `RefCount.Heap.Take` | lai/core/variable.c:46-50 | Swapping a variable out leaves a zero and keeps every count |
| `RefCount.Heap.Finalize` | lai/core/variable.c:19-43 | Dropping a variable keeps every count equal to the references there are, frees exactly the objects whose count reaches zero and changes no other; it ends because the total of the counts decreases |
| `RefCount.Heap.FreeObject` | lai/core/variable.c:12-17 | Freeing an object drops what its slots own, one by one |
| `RefCount.Heap.Put` | lai/core/variable.c:46-50 | Swapping a value into an empty variable keeps every count |
| `RefCount.Heap.Move` | lai/core/variable.c:53-59 | Moving stores the source, leaves a zero there, and releases what the destination held; moving a variable to itself changes nothing |
| `RefCount.Heap.Assign` | lai/core/variable.c:61-80 | Assigning stores the source and releases what the destination held, also when the source lies inside the object that is overwritten; assigning a variable to itself changes nothing |
| `Objects.Create` | lai/core/object.c:12-67 | A new object has one reference, the variable that receives it |
| `Objects.ResizePackage` | lai/core/object.c:100-118 | Resizing keeps the common elements, fills with zeros or releases the rest, and keeps every count |
| `Objects.NothingLeaks` | lai/core/variable.c:12-80 | With exact counts and no cycle every object that is not freed is reachable from a variable |
| `Cloning.CloneVar` | lai/core/object.c:710-733 | A clone has the structure of the source, shares no storage with it and keeps every count |
| `Cloning.ClonePackage` | lai/core/object.c:699-705 | The elements of a package are cloned in order, nested packages included |
| `Cloning.ValueSurvives` | lai/core/variable.c:19-43 | Releasing other objects does not change the value of what is still referenced |
| `Cloning.Clone` | lai/core/object.c:710-733 | Cloning into a variable, also the source itself, leaves there a structurally equal value on storage of its own |
| `Cloning.CloneInto` | lai/core/object.c:710-733 | Cloning into an element of a package does the same, also when the element then contains a copy of its own package, unless the package itself is released with the old content of the element |
| `HashTable.MaskMod` | lai/core/util-hash.h:13-55 | Masking with a power of two is reduction modulo it, for negative hashes too |
| `HashTable.ProbeOnto` | lai/core/util-hash.h:82-89 | A probe sequence visits every bucket |
| `HashTable.ProbeOnce` | lai/core/util-hash.h:82-89 | It visits no bucket twice |
| `HashTable.FindFree` | lai/core/util-hash.h:70-75 | A table with fewer elements than slots has a free one, so the search for a slot succeeds |
| `HashTable.FindBucket` | lai/core/util-hash.h:82-89 | The probe loop finds an empty bucket, so its assertion cannot fail |
| `HashTable.Children.Grow` | lai/core/util-hash.h:13-55 | Growing keeps the elements with their hashes |
| `HashTable.Children.Insert` | lai/core/util-hash.h:57-90 | Inserting adds one element with its hash and nothing else |
| `HashTable.Children.Advance` | lai/core/util-hash.h:101-114 | Advancing stops at the next probe whose element has the hash, or at the end |
| `HashTable.Children.Remove` | lai/core/util-hash.h:129-140 | Removing the element under the cursor removes it alone and leaves no tombstone |
| `HashTable.WalkFindsAll` | lai/core/util-hash.h:101-127 | A walk of the whole chain of a hash finds every element stored with it exactly as often as it is stored |
| `HashWalk.Next` | lai/core/util-hash.h:101-127 | Each step of a walk yields one of the elements still to come, and the walk ends when none is left |
| `HashWalk.RemoveVisited` | lai/core/util-hash.h:129-140 | Removing the element just visited does not disturb the rest of the walk |
| `NameTable.ChildTable.GetChild` | lai/core/ns.c:142-151 | Looking up a name gives what a plain map from names to nodes gives, whatever the hash function |
| `NameTable.ChildTable.Install` | lai/core/ns.c:56-98 | Installing adds the name to the map, or is refused exactly if a sibling has it |
| `NameTable.ChildTable.Uninstall` | lai/core/ns.c:100-132 | Uninstalling removes exactly that node; it panics for a missing child exactly if the node is not there, and never finds it twice |
| `NodeTables.Instance.Install` | lai/core/ns.c:56-98 | Together the child tables are the children of the namespace; installing changes only the table of the parent and appends to the flat array, in which a refused node stays, and so is the install of MethodNodes |
| `NodeTables.Instance.Uninstall` | lai/core/ns.c:100-132 | Likewise for uninstalling, which clears the array first; the array always holds exactly the root, the nodes that a table has, and refused ones |
| `Namespace.SearchNearest` | lai/core/ns.c:612-639 | Search gives the named child of the nearest enclosing scope that has one, behind one alias, and nothing exactly if no scope has it (section 5.3 of the ACPI specification) |
| `Namespace.ResolveSearch` | lai/core/ns.c:612-639 | The loop of lai_resolve_search computes that, ends at the root and never fails its checks |
| `NameResolution.SearchScopes` | lai/core/ns.c:289-316 | The separate loop of lai_do_resolve computes the same |
| `Namespace.StringifyPath` | lai/core/ns.c:244-279 | The path filled in from right to left is the backslash and the segments from the root, separated by dots |
| `NameResolution.ResolvePath` | lai/core/ns.c:551-610 | The two loops of lai_resolve_path compute the path semantics; only the check for a dot can fail |
| `NameResolution.PathResolves` | lai/core/ns.c:551-610 | Resolving the printed path of an installed node gives that node from any context, and the target if and only if it is an alias |
| `NameResolution.ShortSegmentFails` | lai/core/ns.c:583-606 | A segment of fewer than four characters before the last is never found: the dot is read as part of it |
| `NameResolution.LastSegmentPadded` | lai/core/ns.c:587-592 | The last segment is padded with underscores |
| `NameResolution.PaddedAlikeIff` | lai/core/ns.c:580-607 | A dotted path of segments of one to four characters resolves like its padded form in every well-formed namespace if and only if every segment but the last has four characters |
| `NameResolution.NameRoundTrip` | lai/core/ns.c:153-204 | Parsing an encoded name gives it back and consumes exactly its encoding, whatever follows (section 20.2.2 of the ACPI specification) |
| `NameResolution.AmlNameResolves` | lai/core/ns.c:281-349 | The absolute AML name of an installed node resolves to what its printed path resolves to |
| `NameResolution.EncodedNameResolves` | lai/core/ns.c:153-349 | The encoded absolute name of an installed node, whatever follows it, is consumed exactly and resolves to the node from any context |
| `NameResolution.ResolveAml` | lai/core/ns.c:281-349 | Parsing and resolving in loops computes this; a panic is exactly a name that does not parse |
| `NameParsing.NameLengthIs` | lai/core/ns.c:153-193 | The interpreter advances past a name exactly as far as the name parser reads, and rejects the same names |
| `IntrusiveList.List.Link` | lai/core/util-list.h:19-26 | Linking appends to the circular list |
| `IntrusiveList.List.Unlink` | lai/core/util-list.h:28-35 | Unlinking removes exactly that item and keeps the order of the others |
| `IntrusiveList.List.First` | lai/core/util-list.h:37-42 | The first item, or none if the list is empty |
| `MethodNodes.InstallKeeps` | lai/core/ns.c:56-98 | Installing a node keeps the namespace well formed |
| `MethodNodes.UninstallKeeps` | lai/core/ns.c:100-132 | So does uninstalling one |
| `MethodNodes.CleanupWorks` | lai/core/exec.c:1430-1449 | The cleanup loop never meets a missing child and removes all nodes of its list, and only those, whatever other lists record |
| `MethodNodes.MethodRestores` | lai/core/exec.c:1430-1449 | When an invocation returns, its cleanup has not panicked and every child table is again what it was at entry, but for nodes that no invocation recorded; nested calls and refused nodes included |
| `AmlNamespace.TurnChanges` | lai/core/exec.c:1378-1869 | Over a host that keeps the namespace, one turn of the interpreter declares nodes in the current context, opens a scope, enters or leaves a method, or closes a scope, and does nothing else to contexts and child tables |
| `AmlNamespace.MethodRestoresTables` | lai/core/exec.c:1430-1701 | For any bytecode: as soon as the context of a method is gone, every child table is again what it was when the method was entered, but for nodes declared in the body of a Device or Scope; calls, returns out of nested loops and refused nodes included |
| `AmlNamespace.CleanupNeverPanics` | lai/core/exec.c:1430-1443 | At no time in between would the cleanup of the current invocation meet a missing child |
| `AmlNamespace.EveryCallRestores` | lai/core/exec.c:1314-1337 | The same for every method that is entered at any time of a run of lai_populate or lai_eval |
| `AmlNamespace.EvalRestoresTables` | lai/core/exec.c:3658-3736 | A whole evaluation leaves every child table as it was, but for those nodes |
| `MethodNodes.CleanUp` | lai/core/exec.c:1686-1701 | The loop over the intrusive list in place does that and leaves the list empty |
| `FieldAccess.PutAt` | lai/core/opregion.c:18-29 | Writing n bits at a bit position sets exactly those bits that are one in the value and leaves the others |
| `FieldAccess.GetAt` | lai/core/opregion.c:32-46 | Reading n bits at a bit position gives exactly those bits |
| `Fields.AnyAccessWidth` | lai/core/opregion.c:48-89 | With AnyAcc the width is the smallest permitted one that holds the field, or the largest permitted |
| `Fields.ReadFieldInternal` | lai/core/opregion.c:441-468 | Reading unit by unit puts exactly the bits of the field into the destination, whichever width is chosen (section 5.5.2.4 of the ACPI specification) |
| `Fields.WriteFieldInternal` | lai/core/opregion.c:470-516 | Writing unit by unit sets exactly the bits of the field; the other bits of the touched units are kept, ones or zeros as the update rule says; an unknown rule changes nothing |
| `Fields.ReadField` | lai/core/opregion.c:518-540 | A field reads as exactly its bits: as an integer if it has at most 64, otherwise as a buffer of as many bytes as it needs |
| `Fields.WriteField` | lai/core/opregion.c:542-559 | An integer or the content of a buffer or string is written as its bits, and the field then has the value of its low bits; an unknown rule changes nothing |
| `Fields.WriteThenRead` | lai/core/opregion.c:441-559 | Reading back a written field gives what was written, as far as the field goes, under every update rule and access width |
| `Fields.DisjointFields` | lai/core/opregion.c:470-516 | A preserving write leaves every disjoint field as it was; any write leaves those outside the touched units |
| `BufferFields.WriteBuffer` | lai/core/exec-operand.c:396-421 | A buffer-field write at any bit offset sets exactly its bits |
| `BufferFields.ReadBuffer` | lai/core/exec-operand.c:424-446 | What the read loop computes: the bits of the first byte are taken from its low end |
| `BufferFields.ReadsRight` | lai/core/exec-operand.c:424-446 | A buffer-field read gives the bits of the field for every buffer if and only if the offset is a multiple of 8 or the field is empty |
| `BufferFields.WriteThenRead` | lai/core/exec-operand.c:396-446 | What was written is in the buffer modulo 2^size, and is read back at byte-aligned offsets |
| `Mutex.MutualExclusion` | lai/core/exec_impl.h:108-146 | For any number of threads and any interleaving of atomic steps in which only owners unlock, the word is 0, locked, or locked and contended; it is non-zero exactly when one thread owns the lock; no two own it; no assertion fails |
| `Mutex.OthersCannotInterfere` | lai/core/exec_impl.h:108-146 | While a thread owns the lock nothing that the other threads do, however long, releases it or lets one of them take it |
| `Event.CountIsExact` | lai/core/exec_impl.h:151-221 | For any interleaving the count is signals minus waits minus the counts discarded by resets, a positive count never coexists with the waiters bit, and no assertion fails |
| `Event.NoEarlyOverflow` | lai/core/exec_impl.h:178-202 | For any interleaving, the overflow guard stops no thread before 2^31 - 1 signals have succeeded |
| `RoundRobin.StaysStarted` | base/core/scheduler.cpp:29-111 | From sched_init on, through every run of ticks and creations, exactly the current task is running once there has been a tick, and none before |
| `RoundRobin.Ahead` | base/core/scheduler.cpp:29-98 | A task ahead of the current one is dispatched after exactly its distance in ticks, however many tasks are created meanwhile |
| `RoundRobin.Behind` | base/core/scheduler.cpp:29-98 | A task behind the current one is dispatched after the ticks to the end of the list and its position: every task created before the wrap delays it by exactly one tick, later ones do not |
| `RoundRobin.Cyclic` | base/core/scheduler.cpp:29-81 | While no task is created, the current task is the one at the cyclic distance of the ticks |
| `RoundRobin.Resumes` | base/core/scheduler.cpp:29-81 | A preempted task resumes, whatever happened meanwhile, with exactly the registers it was interrupted with |
| `RoundRobin.NewTaskStarts` | base/core/scheduler.cpp:66-98 | A new task, whenever it is first dispatched and whatever happened meanwhile, starts at its entry with its own stack and cleared registers |
| `Scheduler.Sched.Interrupt` | base/core/scheduler.cpp:29-81 | The tick on the linked list in place is the tick on the list of tasks |
| `Scheduler.Sched.CreateTask` | base/core/scheduler.cpp:83-98 | Creating a task appends it to the linked list |
| `Malloc.PayloadFits` | base/memory/malloc.cpp:83-104 | A payload of the requested size fits into its block behind the header, whether it begins 4h or h*h bytes after it, if h is at least 4 |
| `Malloc.PayloadsApart` | base/memory/malloc.cpp:67-115 | Payloads of live allocations never overlap |
| `Malloc.HeadersApart` | base/memory/malloc.cpp:67-115 | Nor does a payload overlap a header |
| `Malloc.NeverOverlapsIff` | base/memory/malloc.cpp:67-115 | For the 32-bit kernel and requests of no more than the end of the region: headers never overlap, after any history of requests and releases, if and only if the region is so small that not even the largest admitted request leads out of the address space |
| `Malloc.Overlaps` | base/memory/malloc.cpp:70-104 | Otherwise three such requests put a header inside the first one |
| `Malloc.AlwaysApartIff` | base/memory/malloc.cpp:67-115 | For requests of any 64-bit size, which can overflow the end check: headers never overlap if and only if no walk can lead around the address space into the region, neither forwards from the lowest address of a header nor backwards from the highest |
| `Malloc.LargestIsGranted` | base/memory/malloc.cpp:87-102 | The request of 2^64 - 1 bytes is granted, and the next header goes 756 bytes behind the first |
| `Malloc.FitsButUnsafe` | base/memory/malloc.cpp:70-104 | A region in which modest requests are safe and others are not |
| `Malloc.Allocator.Malloc` | base/memory/malloc.cpp:67-108 | The walk returns the first free block that is large enough or appends one; the allocator stays sound exactly if no block was appended or the new one ends inside the address space; the end check is computed in 64 bits as in the code |
| `Malloc.Allocator.Free` | base/memory/malloc.cpp:109-115 | Freeing a live pointer frees a block that was handed out fresh; one that was handed out again stays taken |
| `Numerals.NumFmt` | lai/core/vsnprintf.c:28-58 | The digit loop that fills its buffer from the end prints the digits of the number, padded on the left, and the sign of a negative int in a signed conversion |
| `Numerals.SignedRight` | lai/core/vsnprintf.c:30-33 | A signed conversion prints a 64-bit number right exactly if it is a negative int or a number whose bit 31 is clear |
| `Numerals.DigitsDenote` | lai/core/vsnprintf.c:41-47 | The digits printed denote the number by position, if the limit on their number is large enough |
| `Numerals.HexString` | lai/core/object.c:445-454 | The 16 hexadecimal digits of an integer |
| `Numerals.MutateInteger` | lai/core/object.c:641-660 | The parser of up to 16 hexadecimal digits reads the number that the leading digits denote |
| `Numerals.HexRoundTrip` | lai/core/object.c:445-660 | Every 64-bit integer survives the conversion to a hexadecimal string and back |
| `Numerals.ToInteger` | lai/core/object.c:510-549 | The two loops read a decimal or a marked hexadecimal numeral modulo 2^64, and fail exactly at a character that is no digit |
| `Numerals.DecimalString` | lai/core/object.c:336-343 | The decimal digits of an integer, within the 20 characters reserved |
| `Numerals.DecimalRoundTrip` | lai/core/object.c:336-549 | Every 64-bit integer survives the conversion to decimal and back |
| `Numerals.MarkedHexRoundTrip` | lai/core/object.c:510-549 | So does its hexadecimal string once marked with 0x |
| `Numerals.UnmarkedHex` | lai/core/object.c:510-549 | Left unmarked, the hexadecimal string gives back exactly the integers below ten |

## Left out

- AmlMachine: operations on strings, buffers, packages, fields and nodes, and the parsing of declarations, are operations of an arbitrary host; the stacks and the control flow around them are modelled, and for a host that keeps the namespace the child tables.
- AmlMachine: VarPackage stops the run; undefined behaviour of C (a shift by 64 or more, a zero divisor in Mod) stops it too.
- AmlMachine: failed memory allocation, and the release of resources when a run is given up.
- AmlRefinement.MachineRefinesEvaluator: the fragment leaves out Continue, whose restart of the loop is never committed (exec.c:2412), although the machine has it.
- AmlRefinement.MachineRefinesEvaluator: calls in the fragment return explicitly or with an empty operand stack, because an implicit return elsewhere panics (exec.c:1421); the evaluator stops there as the machine does.
- AmlInterpreter.Interpreter.Run: the run is cut off after a number of turns, since an AML program need not end.
- AmlCapacity.RunFits: that a reservation can run out of memory.
- InflateDecoder.Decoder.Inflate: cut off after a number of blocks and of tokens in each; bytes behind the input read as zero.
- InflateDecoder.Decoder.CopyBytes: the growth of the output buffer (ssfn.h:600-617); the output is an unbounded sequence.
- InflateDecoder.Decoder.FillBits: the bits that a word of 32 bits cannot hold; at most 32 are ever held.
- RefCount.Heap.Finalize: overflow of a reference count; the counts are one multiset of addresses, and a slot is emptied before its count is dropped rather than after.
- RefCount.Heap.Move: into a package slot the new cells are stated up to objects that are freed.
- RefCount.Heap.Assign: likewise.
- Cloning.Clone: cyclic packages, on which the code does not end.
- Objects.ResizePackage: strings and buffers, whose resizing copies a prefix.
- HashTable.Children.Insert: the hash function of names is arbitrary.
- NodeTables.Instance.Install: the name of every node is a function given in advance; it is set when the node is created and never changes.
- AmlNamespace.MethodRestoresTables: states nothing of a run that is given up in between, whose nodes stay, nor of nodes created while the body of a Device or a Scope runs, which no invocation records.
- Fields.ReadField: IndexField and BankField, PCI configuration space and I/O ports; memory is an array of bytes.
- Fields.ReadFieldInternal: a chunk of a whole 64-bit unit, for which the code shifts by 64, which C leaves undefined.
- Fields.WriteFieldInternal: likewise.
- Fields.WriteField: an integer written to a field of more than 64 bits, or a content shorter than the field, behind which the code reads.
- BufferFields.WriteBuffer: fields of more than 64 bits, for which the code shifts a 64-bit value by 64 or more, which C leaves undefined.
- BufferFields.ReadBuffer: likewise; states what the loop computes, which is the field only at byte-aligned offsets.
- Mutex.MutualExclusion: that a waiting thread ever gets the lock, memory orders, and waking the wrong waiter.
- Event.CountIsExact: likewise for events.
- RoundRobin.Resumes: killed tasks, and the registers that killing one overwrites.
- Scheduler.Sched.Interrupt: the spinlock, paging and the interrupt frame.
- Malloc.Allocator.Malloc: the prev and next links, and user data or unused memory that carries the magic.
- Malloc.NeverOverlapsIff: regions that begin below address 784 or reach into the upper half of the address space.
- Malloc.AlwaysApartIff: likewise.
- Numerals.NumFmt: output longer than its buffer of 50 characters, before which the code writes.
- Numerals.HexString: the limit on the length in lai_vsnprintf, which these strings do not reach.
- Everything else in the repository: port input and output, ACPI tables other than AML, paging, serial line, framebuffer, glyph rendering, the virtual file system and assembly code.
