# oombak, modelled in Dafny

oombak is an interactive simulator for SystemVerilog designs. A C++ library
built on the slang front end parses the sources and hands back the design's
instance tree. A generator (oombak_gen) emits a Verilator wrapper, the DUT
shim, with `query`, `set`, `get` and `run` entry points. Signal values cross
that boundary as vectors of 32-bit words. A simulator (oombak_local_sim, and
its successor oombak_sim) drives the DUT and records one wave per probed
signal. A terminal front end (oombak_tui, and the older ombak-tui) shows the
waves and the instance hierarchy. It also formats and parses signal values in
binary, octal, decimal and hexadecimal, and takes commands on a command line.

This project models the core of each of those parts. There is one Dafny
module per core source file, plus a few shared modules:

- `Wrappers`: Option and Result.
- `Bits`: bit vectors as `seq<bool>` and their 32-bit word layout.
- `ParserAbi`: the C interface of the parser library.
- `SlangDesign`: the elaborated design as slang presents it.

Each module follows the form of its source:

- Pure code becomes datatypes, functions and lemmas.
- An object whose methods update its fields becomes a `class`. Its
  `Model()` function gives the state as a value. Each method is proved to
  move `Model()` exactly as a pure transition function does. The properties
  are lemmas about those functions.
- Loops in the source are methods with loops and invariants, proved against
  a specification function. Examples: splitting the colon-separated path
  list, collecting signals, flattening the hierarchy, drawing waveform
  lines, the simulators' run and append loops.

The parts outside the model become parameters:

- the slang front end: which files load, the diagnostics, the top-level
  instances;
- the Verilated DUT: a host oracle that answers `run`, `set` and `get`;
- the dynamic library;
- the threads and channels of the front end.

Where the description of the system and the code disagree, the model follows
the code:

- A failed parse does not keep the previous tree. `get_instance_tree` frees
  the root and resets it before anything is checked
  (oombak_rs/oombak_parser/src/oombak_parser.cpp:69-70). A failure to load
  or compile then leaves the slot empty. An error inside the tree builder
  leaves its partly built tree in the slot, but that tree is never handed
  out; `ParserDriver.OombakParser.GetInstanceTree` empties the slot instead
  (see "Left out").
- The diagnostics text is replaced as soon as all files load, even when the
  compilation then fails. It is kept only when a file fails to load
  (oombak_parser.cpp:72-73).
- In the wave viewer, the waveform's state is the plain `ScrollState`.
  oombak_tui/src/widgets/waveform.rs:62 declares it that way, and the
  viewer's scroll calls go through it.

## Model

| member | source | states |
|---|---|---|
| Bits.CeilDiv32 | oombak_rs/src/dut.rs:84 | the number of words for n bits is the least count of 32-bit words that holds n bits |
| Bits.WordsToBits | oombak_rs/src/dut.rs:86 | words laid out low word first give 32 bits per word |
| Bits.WordsToBitsIndex | oombak_rs/src/dut.rs:86 | bit i of the laid-out words is bit i mod 32 of word i / 32 |
| Bits.Chunk | oombak_gen/res/test/sv_project_oombak_gen_output/dut.cpp:47-57 | word k of a value covers bits 32k up to 32k + min(32, n - 32k), between 1 and 32 bits |
| Bits.Pack | oombak_rs/src/dut.rs:61 | a bit vector as raw words has exactly one word per started 32 bits |
| Bits.Unpack | oombak_rs/src/dut.rs:83-89 | reading n bits from words gives exactly n bits |
| Bits.LowBitsOfPack | oombak_gen/res/test/sv_project_oombak_gen_output/dut.cpp:47-57 | packing bits into a word and reading the same number of low bits back gives the bits |
| Bits.PackOfLowBits | oombak_gen/res/test/sv_project_oombak_gen_output/dut.cpp:59-70 | packing the low m bits of a word keeps the word modulo 2^m |
| Bits.BitOfPackBits | oombak_gen/res/test/sv_project_oombak_gen_output/dut.cpp:47-57 | bit j of packed bits is input bit j |
| Bits.UnpackPack | oombak_rs/src/dut.rs:59-89 | bits sent as words and read back with their length are the bits sent |
| Bits.PackUnpack | oombak_rs/src/dut.rs:83-89 | words read as n bits and packed again give the words, each masked to the bits it carries |
| Bits.ChunkOfUnpack | oombak_rs/src/dut.rs:83-89 | chunk k of the bits read from words is the low bits of word k |
| InstanceTreeBuilder.OfKindDirections | oombak_rs/oombak_parser/src/instance_tree_builder.hpp:186-206 | among the members of one kind, a member carries a port direction exactly when the kind is the port kind |
| InstanceTreeBuilder.PortType | oombak_rs/oombak_parser/src/instance_tree_builder.hpp:216-229 | input and output ports map to the port-in and port-out kinds; inout and ref ports are UnsupportedPortDirection |
| InstanceTreeBuilder.CollectConcat | oombak_rs/oombak_parser/src/instance_tree_builder.hpp:125-132 | collecting over ports then nets then variables is collecting each kind in turn, stopping at the first error |
| InstanceTreeBuilder.AppendSignalsOfType | oombak_rs/oombak_parser/src/instance_tree_builder.hpp:186-206 | the loop over the members of one kind appends exactly what the collection specification keeps, or fails with its error |
| InstanceTreeBuilder.GetSignals | oombak_rs/oombak_parser/src/instance_tree_builder.hpp:125-132 | a node's signals are the collection over ports, then nets, then variables |
| InstanceTreeBuilder.CollectExtends | oombak_rs/oombak_parser/src/instance_tree_builder.hpp:171-206 | appending never drops or reorders what was already collected |
| InstanceTreeBuilder.CollectSound | oombak_rs/oombak_parser/src/instance_tree_builder.hpp:186-206 | every appended signal carries a candidate's name, kind and bit width |
| InstanceTreeBuilder.CollectComplete | oombak_rs/oombak_parser/src/instance_tree_builder.hpp:186-206 | every candidate is either appended or shadowed by a port of the same name |
| InstanceTreeBuilder.CollectPortNamesUnique | oombak_rs/oombak_parser/src/instance_tree_builder.hpp:194-198 | no name is appended once a port of that name is present, so port names stay unique |
| InstanceTreeBuilder.CollectPortsFirst | oombak_rs/oombak_parser/src/instance_tree_builder.hpp:125-132 | collecting ports before non-ports keeps every port ahead of every net and variable |
| InstanceTreeBuilder.SignalsPortsFirst | oombak_rs/oombak_parser/src/instance_tree_builder.hpp:125-132 | a node's signal list lists all ports before any net or variable |
| InstanceTreeBuilder.CollectTypeErrorFirst | oombak_rs/oombak_parser/src/instance_tree_builder.hpp:192-198 | an unsupported type raises UnsupportedSymbolType, even for a name a port shadows, when no earlier candidate has a bad direction |
| InstanceTreeBuilder.CollectDirectionError | oombak_rs/oombak_parser/src/instance_tree_builder.hpp:216-229 | an inout or ref port not shadowed by an earlier port raises UnsupportedPortDirection when every earlier candidate is fine |
| InstanceTreeBuilder.CollectKeepsAllNetsAndVariables | oombak_rs/oombak_parser/src/instance_tree_builder.hpp:236-244 | without ports nothing is shadowed: every supported net and variable is kept, duplicates included |
| InstanceTreeBuilder.BuildShape | oombak_rs/oombak_parser/src/instance_tree_builder.hpp:103-123 | a built node is named by its definition at the top and by its label below; its module name is the definition name; its signals are the collection; its children are the nested instances, in order, each built below the top |
| InstanceTreeBuilder.ConsChild | oombak_rs/oombak_parser/src/instance_tree_builder.hpp:144-156 | the children are built exactly when the first child and the rest are; the first child comes first, and its error is reported before any error of the rest |
| InstanceTreeBuilder.BuildChildrenLength | oombak_rs/oombak_parser/src/instance_tree_builder.hpp:144-156 | the children built from position i are one per remaining nested instance |
| InstanceTreeBuilder.BuildChildAt | oombak_rs/oombak_parser/src/instance_tree_builder.hpp:144-156 | child j - i of the children built from position i is the node built, below the top, from nested instance j |
| InstanceTreeBuilder.ChildNamedByLabel | oombak_rs/oombak_parser/src/instance_tree_builder.hpp:112-123 | every node below the top takes its instantiation label as name and its definition as module name |
| InstanceTreeBuilder.VisitInstance | oombak_rs/oombak_parser/src/instance_tree_builder.hpp:103-110 | the visit builds the node depth first as the tree specification says, or fails with its error |
| InstanceTreeBuilder.VisitAndGetChildInstances | oombak_rs/oombak_parser/src/instance_tree_builder.hpp:144-169 | the loop over nested instances builds exactly the specified children, or the first child's error |
| InstanceTreeBuilder.VisitBodySettled | oombak_rs/oombak_parser/src/instance_tree_builder.hpp:71-76 | once a root is found or an error recorded, visiting more of a body changes nothing |
| InstanceTreeBuilder.RepeatVisitSettled | oombak_rs/oombak_parser/src/instance_tree_builder.hpp:88-94 | once settled, the repeated body visits change nothing |
| InstanceTreeBuilder.VisitTopsSettled | oombak_rs/oombak_parser/src/oombak_parser.cpp:75 | once settled, visiting further top-level instances changes nothing |
| InstanceTreeBuilder.HandleFindsFirstMatch | oombak_rs/oombak_parser/src/instance_tree_builder.hpp:71-96 | handling an instance builds the first depth-first instance of the requested module below it; the body visit repeated once per nested instance finds nothing more |
| InstanceTreeBuilder.RepeatVisitSearching | oombak_rs/oombak_parser/src/instance_tree_builder.hpp:88-94 | while a body holds no match, repeating its visit keeps searching |
| InstanceTreeBuilder.VisitBodyFindsFirstMatch | oombak_rs/oombak_parser/src/instance_tree_builder.hpp:88-94 | visiting a body from member i finds the first depth-first match among its later nested instances |
| InstanceTreeBuilder.VisitTopsFindsFirstMatch | oombak_rs/oombak_parser/src/oombak_parser.cpp:75-84 | visiting the design finds the first depth-first match over the top-level instances |
| InstanceTreeBuilder.FirstMatchHasName | oombak_rs/oombak_parser/src/instance_tree_builder.hpp:77-87 | the instance found has the requested definition name |
| InstanceTreeBuilder.FirstMatchFromHasName | oombak_rs/oombak_parser/src/instance_tree_builder.hpp:77-87 | an instance found from member i has the requested definition name |
| InstanceTreeBuilder.Builder.constructor | oombak_rs/oombak_parser/src/instance_tree_builder.hpp:42-54 | a new builder has an empty root slot, no error, and is still searching |
| InstanceTreeBuilder.Builder.SetOutcome | oombak_rs/oombak_parser/src/instance_tree_builder.hpp:77-87 | a build result is stored as the found root or as the recorded error |
| InstanceTreeBuilder.Builder.Handle | oombak_rs/oombak_parser/src/instance_tree_builder.hpp:71-96 | handling an instance moves the builder's state exactly as the handle specification does, keeping a recorded error and an empty root apart |
| InstanceTreeBuilder.Builder.VisitDefault | oombak_rs/oombak_parser/src/instance_tree_builder.hpp:88-94 | visiting a body handles each nested instance in member order |
| InstanceTreeBuilder.Builder.VisitDesign | oombak_rs/oombak_parser/src/oombak_parser.cpp:75 | visiting the design handles each top-level instance in order |
| InstanceTreeBuilder.BuildErrorIsError | oombak_rs/oombak_parser/src/instance_tree_builder.hpp:208-229 | building a tree only fails with UnsupportedSymbolType or UnsupportedPortDirection |
| InstanceTreeBuilder.BuildChildrenErrorIsError | oombak_rs/oombak_parser/src/instance_tree_builder.hpp:158-169 | building children only fails with those two codes |
| InstanceTreeBuilder.CollectErrorKinds | oombak_rs/oombak_parser/src/instance_tree_builder.hpp:186-214 | collecting signals only fails with those two codes |
| ParserDriver.SplitColon | oombak_rs/oombak_parser/src/oombak_parser.cpp:126-140 | splitting gives at least one segment |
| ParserDriver.SplitColonShape | oombak_rs/oombak_parser/src/oombak_parser.cpp:126-140 | there is one more segment than there are colons, and no segment contains a colon |
| ParserDriver.JoinSplitColon | oombak_rs/oombak_parser/src/oombak_parser.cpp:126-140 | joining the segments with colons gives back the input |
| ParserDriver.SplitJoinColon | oombak_rs/src/probe/parser.rs:10-11 | splitting the colon-joined paths gives back the paths, when no path contains a colon |
| ParserDriver.SplitAt | oombak_rs/oombak_parser/src/oombak_parser.cpp:131-138 | the split of a suffix starting with a colon-free segment that ends at position k |
| ParserDriver.FromColonSeparatedPaths | oombak_rs/oombak_parser/src/oombak_parser.cpp:126-140 | the scan returns exactly the colon-separated segments: one more than the colons, joining back to the input |
| ParserDriver.InstanceTreeOutcome | oombak_rs/oombak_parser/src/oombak_parser.cpp:66-85 | error precedence: a file that fails to load gives FileNotFound, then diagnostics give CompileError, then no match gives TopModuleNotFound; a success is the first depth-first instance of the requested module, named by its definition name |
| ParserDriver.AddSyntaxTrees | oombak_rs/oombak_parser/src/oombak_parser.cpp:87-103 | loading succeeds exactly when every path loads; otherwise the error is FileNotFound |
| ParserDriver.CheckCompilation | oombak_rs/oombak_parser/src/oombak_parser.cpp:105-112 | a compilation passes exactly when it has no diagnostics; otherwise CompileError |
| ParserDriver.OombakParser.constructor | oombak_rs/oombak_parser/src/oombak_parser.cpp:50-59 | a new context has an empty root and no diagnostics text |
| ParserDriver.OombakParser.GetInstanceTree | oombak_rs/oombak_parser/src/oombak_parser.cpp:66-85 | the call returns the root exactly when the tree specification succeeds, and then holds that tree; a failure returns its code and no root (the model empties the slot, see Left out); the diagnostics text is replaced once all files load |
| ParserDriver.VariantToResult | oombak_rs/oombak_parser/src/oombak_parser.cpp:203-218 | the C result is flagged an error exactly when the variant holds an error, and then carries the error code |
| ParserDriver.VariantToResultRoundTrip | oombak_rs/oombak_parser/src/oombak_parser.cpp:203-218 | the flag and the union member give the variant back, so nothing is lost |
| ParserDriver.ParserLibrary.constructor | oombak_rs/oombak_parser/src/oombak_parser.cpp:159 | the library's global context starts with an empty root |
| ParserDriver.ParserLibrary.GetCtx | oombak_rs/oombak_parser/src/oombak_parser.cpp:165-168 | each new context is fresh, with an empty root and no diagnostics |
| ParserDriver.ParserLibrary.Parse | oombak_rs/oombak_parser/src/oombak_parser.cpp:176-181 | parsing splits the paths and returns the global context's tree or the error code the tree specification gives; a failure leaves the global root empty, and the diagnostics text is replaced once all files load |
| ParserDriver.ParserLibrary.ParseR | oombak_rs/oombak_parser/src/oombak_parser.cpp:183-190 | the reentrant parse does the same on the context it is given, and only there |
| ParserDriver.ParserLibrary.GetLastDiagnostics | oombak_rs/oombak_parser/src/oombak_parser.cpp:192-201 | the diagnostics text returned is a copy of the context's |
| LegacyParserDriver.LegacyAgreesWithCurrent | oombak_parser/src/oombak_parser.cpp:81-94 | the first driver builds the same tree as the current one whenever the current one succeeds, and returns nothing in every case the current one reports an error |
| LegacyParserDriver.LegacyOombakParser.constructor | oombak_parser/src/oombak_parser.cpp:69-77 | a new context has an empty root |
| LegacyParserDriver.LegacyOombakParser.GetInstanceTree | oombak_parser/src/oombak_parser.cpp:81-109 | the call throws exactly when a file fails to load or the compilation has diagnostics; it returns the root exactly when a tree is found; the slot then holds the specified tree and is empty otherwise |
| LegacyParserDriver.LegacyParserLibrary.constructor | oombak_parser/src/oombak_parser.cpp:34 | the global context starts with an empty root |
| LegacyParserDriver.LegacyParserLibrary.GetCtx | oombak_parser/src/oombak_parser.cpp:36-38 | each new context is fresh and empty |
| LegacyParserDriver.LegacyParserLibrary.Parse | oombak_parser/src/oombak_parser.cpp:45-54 | the pointer is non-null exactly when the tree specification succeeds, and then the global context holds that tree; every failure is NULL with no code |
| LegacyParserDriver.LegacyParserLibrary.ParseWith | oombak_parser/src/oombak_parser.cpp:56-67 | the same on the context given; a NULL result leaves that context's slot empty |
| ProbeParser.GetPorts | oombak_rs/src/probe/parser.rs:116-118 | the ports of a node are exactly its signals that are ports |
| ProbeParser.StringFromPtr | oombak_rs/src/probe/parser.rs:223-228 | a string converts exactly when its pointer is non-null, keeping its text; a null pointer is NullDereference |
| ProbeParser.SignalFromRaw | oombak_rs/src/probe/parser.rs:167-184 | a C signal converts exactly when its name pointer is non-null (names are UTF-8 in the model) |
| ProbeParser.SignalConversion | oombak_rs/src/probe/parser.rs:167-207 | conversion keeps the name and the width, a port stays a port and an input an input, and the C kind can be read back |
| ProbeParser.CollectSignalsNull | oombak_rs/src/probe/parser.rs:239-250 | for UTF-8 names, converting a signal array fails exactly when some name is null, always with NullDereference, and otherwise keeps one signal per entry |
| ProbeParser.InstanceFromRawNull | oombak_rs/src/probe/parser.rs:146-165 | for UTF-8 names, converting a C tree fails exactly when some pointer in it is null, and then with NullDereference |
| ProbeParser.ChildrenFromRawNull | oombak_rs/src/probe/parser.rs:252-263 | for UTF-8 names, converting the children from position i fails exactly when one of them holds a null pointer |
| ProbeParser.LowerSignals | oombak_rs/oombak_parser/src/instance_tree_builder.hpp:134-142 | the C view of a built signal list has one non-null entry per signal with its name, kind and width |
| ProbeParser.LiftSignals | oombak_rs/src/probe/parser.rs:167-184 | the owned view of a signal list has one converted signal per entry |
| ProbeParser.CollectLoweredSignals | oombak_rs/src/probe/parser.rs:239-250 | reading back the signals the library built gives their owned counterparts |
| ProbeParser.ReadBackBuiltTree | oombak_rs/src/probe/parser.rs:146-165 | reading back any tree the library built succeeds and gives its owned counterpart |
| ProbeParser.ReadBackChildren | oombak_rs/src/probe/parser.rs:252-263 | reading back the children from position i gives their owned counterparts |
| ProbeParser.MapErrorInjective | oombak_rs/src/probe/parser.rs:124-140 | distinct C error codes become distinct Rust errors, none of them NullDereference |
| ProbeParser.NodeFromResult | oombak_rs/src/probe/parser.rs:121-144 | an error result becomes the Rust error its code maps to |
| ProbeParser.CheckCompileError | oombak_rs/src/probe/parser.rs:27-44 | exactly a compile-error result fails, carrying the context's diagnostics text |
| ProbeParser.Parse | oombak_rs/src/probe/parser.rs:10-25 | parsing joins the paths, builds in a fresh context, and returns what the parse outcome specification gives: the lifted tree, FailedToCompile with the diagnostics text, or the mapped error |
| ProbeParser.BuilderErrorsAreCodes | oombak_rs/src/probe/parser.rs:139 | the library never reports the "no error" code, so the `unreachable!` arm is never taken |
| ProbeParser.ParseSuccess | oombak_rs/src/probe/parser.rs:10-25 | a successful parse of colon-free paths returns the first depth-first instance of the requested module, named after it |
| ProbeParser.SplitOnce | oombak_rs/src/probe/parser.rs:96 | splitting at the first '.' fails exactly when there is no '.', and otherwise the head and tail rejoin to the input, with no '.' in the head |
| ProbeParser.FindOwn | oombak_rs/src/probe/parser.rs:100-104 | a found signal is one of the node's, with that name; nothing is found only when no signal has that name |
| ProbeParser.GetSignalHead | oombak_rs/src/probe/parser.rs:95-99 | a lookup finds something only for a dotted path headed by the node's name |
| ProbeParser.GetSignalSound | oombak_rs/src/probe/parser.rs:95-114 | whatever the lookup returns is a signal of the tree addressed by the path asked for |
| ProbeParser.SearchChildrenSound | oombak_rs/src/probe/parser.rs:105-110 | a signal found among the children is the lookup's result in one of them |
| ProbeParser.GetSignalComplete | oombak_rs/src/probe/parser.rs:95-114 | every signal a dotted path addresses is found when node names contain no '.' |
| ProbeParser.SearchChildrenFinds | oombak_rs/src/probe/parser.rs:105-110 | if some child from position i has the signal, the search finds one |
| ProbeParser.LookupAtNode | oombak_rs/src/probe/parser.rs:96-111 | at a node whose name heads the path, its own signals are searched before its children |
| ProbeParser.LookupElsewhere | oombak_rs/src/probe/parser.rs:97-99 | a path headed by another name finds nothing at this node |
| ProbeParser.LookupExample | oombak_rs/src/probe/parser.rs:278-292 | the crate's own lookup example finds `root.child_1.child_2.sig_1` |
| LegacyParser.GetPorts | oombak_rs/src/parser.rs:77-79 | the ports of a node are exactly its signals that are ports |
| LegacyParser.StringFromPtr | oombak_rs/src/parser.rs:147-152 | a string converts exactly when its pointer is non-null, keeping its text; a null pointer is NullDereference |
| LegacyParser.SignalFromRaw | oombak_rs/src/parser.rs:103-122 | a C signal converts exactly when its name pointer is non-null (names are UTF-8 in the model) |
| LegacyParser.SignalConversion | oombak_rs/src/parser.rs:103-144 | conversion keeps the name and the width; the port kinds become ports and only the input kind an input port |
| LegacyParser.ProbeSignals | oombak_rs/src/parser.rs:25-35 | renaming a signal list to the current module's types keeps one renamed signal per entry |
| LegacyParser.ProbeSignalFaithful | oombak_rs/src/parser.rs:25-35 | the renaming keeps name, width, port and input flags, and is injective |
| LegacyParser.CollectSignalsAgree | oombak_rs/src/parser.rs:163-174 | converting a signal array fails exactly when the current module's conversion does, with NullDereference, and otherwise agrees with it up to the renaming |
| LegacyParser.InstanceFromRawAgrees | oombak_rs/src/parser.rs:82-101 | the first module reads every raw tree as the current one does up to the renaming, and fails with NullDereference exactly when some pointer is null |
| LegacyParser.ChildrenFromRawAgree | oombak_rs/src/parser.rs:176-187 | the same for the children from position i |
| LegacyParser.FindOwn | oombak_rs/src/parser.rs:61-65 | a found signal is one of the node's signals, with that name |
| LegacyParser.FindOwnAgrees | oombak_rs/src/parser.rs:61-65 | a node's own signals are searched as the current module searches them |
| LegacyParser.GetSignalAgrees | oombak_rs/src/parser.rs:56-75 | the lookup answers every path as the current module's lookup does on the same tree |
| LegacyParser.SearchChildrenAgree | oombak_rs/src/parser.rs:66-71 | the children are searched as the current module searches them |
| LegacyParser.GetSignalSound | oombak_rs/src/parser.rs:56-75 | what the lookup returns is a signal of the tree addressed by a dotted path headed by the root's name |
| LegacyParser.Parse | oombak_rs/src/parser.rs:8-15 | an interior NUL in the joined paths or the top name is InteriorNul; otherwise parsing succeeds exactly when the tree specification does, and gives that tree; every other failure is NullDereference |
| LegacyParser.NullPointer | oombak_rs/src/parser.rs:285-290 | a NULL instance pointer is reported as NullDereference |
| ProbeList.LookupInTree | oombak_rs/src/probe.rs:35 | whatever the lookup returns is a signal of some node of the tree |
| ProbeList.SearchInTree | oombak_rs/src/probe.rs:35 | a signal found among the children is a signal of one of their subtrees |
| ProbeList.AddKeepsTreeSignals | oombak_rs/src/probe.rs:34-41 | adding keeps every probed signal a signal of the tree, keeps the earlier list as a prefix, and grows it by one exactly when it reports no error |
| ProbeList.ProbeState.constructor | oombak_rs/src/probe.rs:24-27 | a probe over a parsed tree starts with no probed signals |
| ProbeList.ProbeState.AddSignalToProbe | oombak_rs/src/probe.rs:34-41 | a name the lookup finds appends its signal; an unknown name is UnknownSignal and leaves the list as it was |
| ProbeList.TryFrom | oombak_rs/src/probe.rs:22-28 | the probe exists exactly when parsing succeeds; it holds the parsed tree, no probed signals, and reports the requested top module's name |
| DutShim.NextTimeIsMin | oombak_gen/res/test/sv_project_oombak_gen_output/dut.cpp:37-42 | with events pending the new time is the minimum of the requested time and the next time slot; without, the requested time; never beyond the requested time |
| DutShim.SignalMappingsContents | oombak_gen/res/test/sv_project_oombak_gen_output/dut.cpp:72-84 | exactly clk, rst_n and in can be set, and exactly those plus out, sample.c and sample.adder_inst.d can be read |
| DutShim.GetWordsVecFrom | oombak_gen/res/test/sv_project_oombak_gen_output/dut.cpp:47-57 | the loop reads n bits as one word per started 32 bits, each holding its chunk in the low bits; reading them back as n bits gives the buffer's first n bits; no bits give no words |
| DutShim.PackSnoc | oombak_gen/res/test/sv_project_oombak_gen_output/dut.cpp:49-55 | appending one chunk of at most 32 bits to a whole number of words appends one packed word |
| DutShim.SetFromWordsVec | oombak_gen/res/test/sv_project_oombak_gen_output/dut.cpp:59-70 | the write succeeds exactly when the words hold at least n bits; it then writes exactly the first n bits the words carry and leaves the rest of the buffer alone; on failure the buffer is unchanged |
| DutShim.PutPartselBit | oombak_gen/res/test/sv_project_oombak_gen_output/dut.cpp:66 | a part-select write sets bits i to i + w - 1 from the word's low bits and changes no other bit |
| DutShim.Dut.constructor | oombak_gen/res/test/sv_project_oombak_gen_output/dut.cpp:6-12 | a new wrapper starts at time 0, not finished, with the generated signal table |
| DutShim.Dut.Run | oombak_gen/res/test/sv_project_oombak_gen_output/dut.cpp:33-45 | after $finish a run fails and nothing changes; otherwise time moves as the time rule says from the scheduler state before the step and is returned, and the eval at the new time sets the finished flag, the pending events and the next time slot |
| DutShim.Dut.Set | oombak_gen/res/test/sv_project_oombak_gen_output/dut.cpp:16-22 | a write succeeds exactly when the signal has a setter and the setter succeeds |
| DutShim.Dut.Get | oombak_gen/res/test/sv_project_oombak_gen_output/dut.cpp:24-31 | a read fails exactly when the signal has no getter, and otherwise returns the getter's words and bit count |
| LegacyDutShim.SignalMappingsContents | dut_gen/dut.cpp:69-79 | exactly clk, rst_n and in can be set, and exactly those plus out can be read |
| LegacyDutShim.MappingsGrew | dut_gen/dut.cpp:69-79 | every signal of the first wrapper's table is in the generated wrapper's table with the same accessors |
| LegacyDutShim.SetFromVec | dut_gen/dut.cpp:59-67 | the writer writes exactly the first n bits the words carry and leaves the rest of the buffer alone |
| LegacyDutShim.Dut.constructor | dut_gen/dut.cpp:6-12 | a new wrapper starts at time 0, not finished, with the four-port table |
| LegacyDutShim.Dut.Run | dut_gen/dut.cpp:33-45 | the same time rule as the generated wrapper, the new time being the earlier of time + duration and the next slot when events are pending, followed by the same eval |
| LegacyDutShim.Dut.Set | dut_gen/dut.cpp:16-23 | a write reports success exactly when the signal has a setter, whatever the setter does |
| LegacyDutShim.Dut.Get | dut_gen/dut.cpp:25-31 | a read fails exactly when the signal has no getter, and otherwise returns the getter's words |
| DutBindings.BitvecFrom | oombak_rs/src/dut.rs:83-89 | the bit vector read from words has exactly n bits, bit i being bit i mod 32 of word i / 32 |
| DutBindings.BitvecFromPack | oombak_rs/src/dut.rs:59-89 | the raw words of a bit vector, read back with its length, give the bit vector |
| DutBindings.RunResult | oombak_rs/src/dut.rs:51-57 | a run succeeds exactly on status 0, returning the current time; otherwise the Run error |
| DutBindings.SetWords | oombak_rs/src/dut.rs:59-69 | the words sent for a value are one per started 32 bits and read back to the value |
| DutBindings.SetResult | oombak_rs/src/dut.rs:59-69 | a write succeeds exactly when the name has no interior NUL and the status is 0; a NUL is its own error, a non-zero status the Set error with the name and value |
| DutBindings.GetResult | oombak_rs/src/dut.rs:71-81 | a read succeeds exactly when the name has no interior NUL and the buffer is non-null, and gives n bits; a null buffer is the Get error with the name |
| DutBindings.SignalFrom | oombak_rs/src/dut.rs:105-118 | a signal keeps its name and width, and its flags are set exactly when the C flags are 1 |
| DutBindings.SignalsFrom | oombak_rs/src/dut.rs:91-94 | the query's signals are converted one by one, in order |
| TuiBindings.BitvecFrom | tui/src/lib.rs:78-84 | the prototype reads word buffers exactly as the current binding does |
| TuiBindings.RunResult | tui/src/lib.rs:42-50 | a run succeeds exactly on status 0, returning the current time; otherwise "failed to run" |
| TuiBindings.SetResult | tui/src/lib.rs:52-64 | a write succeeds exactly on status 0; otherwise "failed to set" |
| TuiBindings.GetResult | tui/src/lib.rs:66-76 | a read succeeds exactly when the buffer is non-null, giving the bits the current binding gives; otherwise "failed to get" |
| TuiBindings.AgreesWithCurrent | tui/src/lib.rs:42-84 | on names without NUL the prototype succeeds exactly when the current binding does, and reads the same bits |
| TuiBindings.SignalFrom | tui/src/lib.rs:144-158 | a signal keeps its name and width, and its flags are set exactly when the C flags are 1 |
| GenSignalNames.DotReplacedShape | oombak_gen/src/parser.rs:16-20 | the generated identifier contains no '.', a name without '.' is unchanged, and each '.' adds four characters |
| GenSignalNames.DotReplacedAppend | oombak_gen/src/parser.rs:16-20 | replacing dots distributes over concatenation |
| GenSignalNames.JoinReplaced | oombak_gen/src/parser.rs:16-20 | a three-part dotted path becomes its parts joined by `_DOT_` |
| GenSignalNames.DotReplacedExample | oombak_gen/res/test/sv_project_oombak_gen_output/dut.cpp:83 | sample.adder_inst.d becomes sample_DOT_adder_inst_DOT_d, the accessor name the generated wrapper uses |
| GenSignalNames.Parse | oombak_gen/src/parser.rs:22-72 | the generator's design is module sample with six readable signals |
| GenSignalNames.ParseMatchesMappings | oombak_gen/src/parser.rs:22-72 | every signal the generator lists is in the generated wrapper's table with matching accessors; exactly clk, rst_n and in are settable, and only top-level signals are |
| WaveResults.Expand | oombak_sim/src/message/response/results.rs:25-29 | a wave's runs, expanded, give one value per time unit: as many as the durations add up to |
| WaveResults.IndexedSteps | oombak_sim/src/message/response/results.rs:104-110 | the first run starts at time 0 and each run starts where the previous one ends |
| WaveResults.EndTimeIsLength | oombak_sim/src/message/response/results.rs:114-122 | the end time is the last time unit covered, and 0 for an empty wave |
| WaveResults.PartitionPoint | oombak_sim/src/message/response/results.rs:140 | the partition point counts the start times at or before t: all earlier ones are at most t and the next one is later |
| WaveResults.IsEmpty | oombak_sim/src/message/response/results.rs:124-126 | a wave is empty exactly when it covers no time unit |
| WaveResults.ExpandAt | oombak_sim/src/message/response/results.rs:136-143 | time unit (start of run i + offset) is covered by run i and holds its value |
| WaveResults.FindCovers | oombak_sim/src/message/response/results.rs:136-143 | find fails exactly when t is past the end; otherwise it names the run covering t and the offset of t inside it |
| WaveResults.AtIsExpand | oombak_sim/src/message/response/results.rs:128-134 | the value at time t is the t-th value of the expanded wave, and there is none past the end |
| WaveResults.ExpandAppend | oombak_sim/src/message/response/results.rs:93-112 | expanding concatenated runs concatenates their expansions |
| WaveResults.MergeLast | oombak_sim/src/message/response/results.rs:101-102 | lengthening the last run keeps the index and compaction and extends the expansion by that many copies of its value |
| WaveResults.PushRun | oombak_sim/src/message/response/results.rs:103-110 | pushing a run with a new value, starting where the last one ends, keeps the index and compaction and extends the expansion by the run |
| WaveResults.FindOrdered | oombak_sim/src/message/response/results.rs:136-143 | a later time is found in the same run or a later one |
| WaveResults.CutIsCompacted | oombak_sim/src/message/response/results.rs:68-90 | the runs of a slice have positive durations and neighbours with different values |
| WaveResults.CutExpands | oombak_sim/src/message/response/results.rs:68-90 | the runs of a slice expand to exactly the covered time units between its start and end offsets |
| WaveResults.CutBetween | oombak_sim/src/message/response/results.rs:58-91 | for start and end times inside the wave, the slice expands to the wave's values from the start time to the end time, inclusive |
| WaveResults.SliceAcrossRuns | oombak_sim/src/message/response/results.rs:68-90 | from an offset in one run to an offset in a later run, the cut first run, the whole runs between and the cut last run expand to exactly the wave's values between those times |
| WaveResults.CutCompacted | oombak_sim/src/message/response/results.rs:68-90 | runs cut short at the ends, keeping their values, are still compacted |
| WaveResults.SliceRuns | oombak_sim/src/message/response/results.rs:58-91 | nothing exactly when either time is past the end; otherwise compacted runs lasting end - start + 1 units that expand to the wave's values from the start time to the end time |
| WaveResults.AppendRun | oombak_sim/src/message/response/results.rs:93-112 | appending keeps the runs indexed and compacted and adds exactly duration copies of the value to the expanded wave |
| WaveResults.Wave.FromSignal | oombak_sim/src/message/response/results.rs:46-55 | a new wave carries the signal's name and width and no values |
| WaveResults.Wave.Append | oombak_sim/src/message/response/results.rs:93-112 | appending a run adds exactly duration copies of its value to the expanded wave, merging with an equal last run, and keeps the wave indexed and compacted; a run of duration 0 changes nothing |
| WaveResults.Wave.Slice | oombak_sim/src/message/response/results.rs:58-91 | slicing gives nothing when either time is past the end, and otherwise the runs the slice specification gives |
| SimDut.OpenDut | oombak_rs/src/dut.rs:40-43 | opening a library succeeds exactly when the library loads, and the new handle starts at time 0 |
| SimDut.LoadedDutFrom | oombak_sim/src/message/response/results.rs:31-44 | the loaded DUT lists the probe's tree and the name of each probed signal, in order |
| SimDut.NotLoadedIffNoDut | oombak_local_sim/src/lib.rs:306-333 | run, get, set and query report DutNotLoaded exactly when no DUT is loaded; a loaded DUT's failures are DUT errors; a run moves its clock as the host's step does from the clock and the inputs written so far, keeping the inputs; a set succeeds exactly when the library accepts the write and then adds the value to the inputs |
| SimDut.WriteIsReadBack | oombak_rs/src/dut.rs:59-81 | with a library whose signals read the value last written to them, a read right after an accepted write gives the value written |
| SimDut.AddAllSpec | oombak_local_sim/src/lib.rs:284-286 | adding paths in order keeps the tree, keeps the earlier probed signals as a prefix, and adds one signal per path when all are found; otherwise it stops at the first unknown path, reporting it, after adding the ones before it |
| SimDut.ModifiedAddsFirst | oombak_local_sim/src/lib.rs:279-291 | a probe modification adds every path before removing any: an unknown path to add ends it with that error; otherwise the removals run on the probe with all additions |
| SimWaves.Runs | oombak_sim/src/message/response/results.rs:25-29 | the simulator's (value, start, count) runs read as compact runs, one per run, holding the value for count units |
| SimWaves.ExpandSnoc | oombak_local_sim/src/lib.rs:119-122 | pushing a run extends the expanded wave by count copies of its value |
| SimWaves.AppendValueSpec | oombak_local_sim/src/lib.rs:115-123 | appending a value for a duration extends the expanded wave by that many copies of it, changing at most the last run and adding at most one, and keeps runs tiling time from 0 and neighbours distinct |
| SimWaves.MergeSpec | oombak_local_sim/src/lib.rs:116-117 | adding the duration to an equal last run extends the expansion and keeps the tiling and distinct neighbours |
| SimWaves.MergeStarts | oombak_local_sim/src/lib.rs:116-117 | lengthening the last run keeps every run's start equal to the units covered before it |
| SimWaves.PushSpec | oombak_local_sim/src/lib.rs:118-122 | pushing a run that starts at the current time extends the expansion and keeps the tiling, and distinct neighbours when its value differs from the last |
| SimWaves.AppendAll | oombak_local_sim/src/lib.rs:110-124 | appending new values keeps one wave per wave |
| SimWaves.AppendAllSpec | oombak_local_sim/src/lib.rs:102-127 | each wave keeps its name and width and grows by its new value held for the duration; well-formed waves up to the current time become well-formed up to the new time |
| SimWaves.AppendEach | oombak_local_sim/src/lib.rs:110-124 | the loop extends each wave in turn, giving exactly the waves the append specification gives |
| SimWaves.AppendUntil | oombak_local_sim/src/lib.rs:102-127 | the values are read first and a failed read is the error; otherwise every wave is extended from the current time up to the end time |
| SimWaves.WavesFrom | oombak_local_sim/src/lib.rs:197-204 | the waves of a freshly loaded DUT are one empty wave per DUT signal, with its name and width, well formed at time 0 |
| SimWaves.QueryAll | oombak_local_sim/src/lib.rs:129-139 | a successful query gives one value per wave |
| SimWaves.QueryAllSpec | oombak_local_sim/src/lib.rs:129-139 | the query succeeds exactly when every wave's signal reads, giving each wave its signal's value; otherwise it fails with the first failing read's error |
| SimWaves.QueryAllPrefixErr | oombak_local_sim/src/lib.rs:134-137 | once a read fails, the later waves are not read |
| SimWaves.QueryNewValues | oombak_local_sim/src/lib.rs:129-139 | the loop reads the waves' signals in order and returns what the query specification gives |
| LocalSim.DutState.constructor | oombak_local_sim/src/lib.rs:30-37 | a new DUT state has no DUT, probe, path or build, and is not being reloaded |
| LocalSim.DutState.Run | oombak_local_sim/src/lib.rs:307-312 | a run moves the DUT's clock as the host's step does and returns the new time, changing nothing else; without a DUT it is DutNotLoaded |
| LocalSim.DutState.Set | oombak_local_sim/src/lib.rs:321-326 | without a DUT it is DutNotLoaded; a write the library accepts is recorded by the DUT, with its clock kept, and a refused one is the DUT's error and changes nothing |
| LocalSim.AccessorsNeedState | oombak_local_sim/src/lib.rs:314-347 | get, set and query are DutNotLoaded exactly without a DUT; probe and path are DutNotLoaded exactly when absent and otherwise return what is stored |
| LocalSim.DutState.ReleaseResources | oombak_local_sim/src/lib.rs:379-382 | releasing drops the DUT and the build and keeps the probe, path and reload flag |
| LocalSim.DutState.Reload | oombak_local_sim/src/lib.rs:349-363 | a reload stores the build; if the library opens it installs the DUT at time 0, the path and the probe and clears the reload flag; otherwise the DUT is gone and the rest unchanged |
| LocalSim.DutState.ReloadPathUnchanged | oombak_local_sim/src/lib.rs:365-377 | the same without touching the path |
| LocalSim.ExtendsRefl | oombak_local_sim/src/lib.rs:110-124 | every wave list extends itself |
| LocalSim.ExtendsTrans | oombak_local_sim/src/lib.rs:110-124 | extending is transitive |
| LocalSim.AppendKeepsHistory | oombak_local_sim/src/lib.rs:110-124 | appending values keeps every earlier history as a prefix |
| LocalSim.AppendAllExtends | oombak_local_sim/src/lib.rs:110-124 | appending keeps every wave's history and keeps well-formed waves well formed up to the end time |
| LocalSim.AppendedUntilSpec | oombak_local_sim/src/lib.rs:102-127 | a successful append keeps every wave's history and keeps well-formed waves well formed up to the end time |
| LocalSim.SimulationResult.constructor | oombak_local_sim/src/lib.rs:23 | the default result is at time 0 with no waves |
| LocalSim.SimulationResult.AppendNewValuesUntil | oombak_local_sim/src/lib.rs:102-127 | when every read succeeds, each wave grows by its signal's value from the current time up to the end time, which becomes current; when a read fails, nothing changes and that read's error is returned |
| LocalSim.SimulationResult.Reload | oombak_local_sim/src/lib.rs:188-204 | a reload resets the time to 0 and makes one empty wave per DUT signal, or no waves when the query fails |
| LocalSim.RunFromSpec | oombak_local_sim/src/lib.rs:84-100 | a run that `RunFrom` records to the end leaves the DUT's clock at the target, keeps every wave's history, and leaves waves recorded up to the start recorded up to the target |
| LocalSim.SimulationResult.Run | oombak_local_sim/src/lib.rs:84-100 | corrected loop (see Findings): the DUT and the waves end as `RunFrom` says: step after step the DUT runs for the time still missing and every wave is extended by the DUT's reading up to the time reached, the first failed run or read being the error; a successful run ends exactly at the old time plus the duration, with the DUT's clock there too, and the earlier history is kept |
| LocalSim.SimulationResult.Step | oombak_local_sim/src/lib.rs:91-97 | corrected step, asking the DUT for the time still missing: the DUT's clock and the result move to the same time, past the old time and not beyond the target, and the waves become the old waves extended by the DUT's readings up to that time (`AppendedUntil`); the rest of the run is `RunFrom` from there, and a failed step is `RunFrom`'s error |
| LocalSim.AsWrittenTimesAtFive | oombak_local_sim/src/lib.rs:90-98 | as written, with one pending event at time 5 that the DUT consumes there, a run of 10 from 0 visits 0, 5, 15, 25, ... |
| LocalSim.RunOvershoots | oombak_local_sim/src/lib.rs:90-98 | as written, that run never reaches its target time 10, so the loop does not end |
| LocalSim.PendingAtFiveAdvances | oombak_local_sim/src/lib.rs:92 | the host of the counterexample advances the clock on every step, so it meets the precondition of the corrected run |
| LocalSim.GetModifiedProbe | oombak_local_sim/src/lib.rs:279-291 | the loops add every path, then remove every path, returning what the modification specification gives |
| LocalSim.LocalSimulator.constructor | oombak_local_sim/src/lib.rs:23-28 | a new simulator has an empty result at time 0 and no DUT |
| LocalSim.LocalSimulator.Run | oombak_local_sim/src/lib.rs:75-100 | with the corrected loop, the DUT and the waves end as `RunFrom` says: step after step the DUT runs for the time still missing and every wave is extended by the DUT's reading up to the time reached, the first failed run or read being the error; a successful run returns the old time plus the duration, keeps the DUT clock and the result in step, and keeps the waves' history |
| LocalSim.LocalSimulator.SetSignal | oombak_local_sim/src/lib.rs:211-217 | the value is written as DutState.Set states, in any state; the result and the clock agreement are kept |
| LocalSim.LocalSimulator.LoadDut | oombak_local_sim/src/lib.rs:148-204 | a load while another is pending is DutIsLoading and changes nothing; a failed build leaves the reload flag set; a successful load installs the new DUT, path, probe and build, resets the result to one empty wave per DUT signal, and returns the loaded DUT |
| LocalSim.LocalSimulator.ModifyProbePoints | oombak_local_sim/src/lib.rs:233-277 | a modification while a load is pending is DutIsLoading; without a probe it is DutNotLoaded; a failing modification leaves probe and DUT; a successful one rebuilds at the same path, installs the modified probe and resets the result |
| SimLocalSimulator.LocalSimulator.constructor | oombak_sim/src/local_simulator.rs:19-33 | a new simulator has no channel, has sent nothing, has an empty result at time 0 and no DUT |
| SimLocalSimulator.LocalSimulator.SetChannel | oombak_sim/src/local_simulator.rs:58-61 | setting the channel opens it and sends nothing |
| SimLocalSimulator.LocalSimulator.DropChannel | oombak_sim/src/local_simulator.rs:65-68 | dropping the channel closes it and sends nothing |
| SimLocalSimulator.LocalSimulator.LoadDut | oombak_sim/src/local_simulator.rs:143-189 | a load sets the reload flag unconditionally; a failed build leaves it set and changes nothing else; a successful load installs the new DUT, path, probe and build, resets the result to one empty wave per DUT signal, and returns the loaded DUT |
| SimLocalSimulator.LocalSimulator.ServeRun | oombak_sim/src/local_simulator.rs:70-95 | the answer is the new time exactly when the corrected run succeeds, which then ends at the old time plus the duration with the DUT and the waves as `RunFrom` records them, and otherwise `RunFrom`'s error; the history is kept |
| SimLocalSimulator.LocalSimulator.ServeLoad | oombak_sim/src/local_simulator.rs:136-189 | a failed build answers its error and changes no state; the reload flag clears exactly when the build and the library both succeed; a Loaded answer describes the new DUT, whose path, probe and empty waves at time 0 are installed |
| SimLocalSimulator.LocalSimulator.Serve | oombak_sim/src/local_simulator.rs:37-56 | Terminate drops the channel and answers nothing; every other request sends exactly one response tagged with the request's id when a channel is open and nothing otherwise; a Run is answered as ServeRun states, a Load as ServeLoad states, and a result request with the current waves and time, changing nothing |
| SimServer.RequestServer.constructor | oombak_sim/src/sim.rs:91-102 | a new server serves id 0, has no DUT, probe, path or build, is at time 0 with no waves, and has notified nobody |
| SimServer.RequestServer.Notify | oombak_sim/src/sim.rs:269-277 | the listeners receive one response tagged with the id being served, and nothing else changes |
| SimServer.RequestServer.ReleaseResources | oombak_sim/src/sim.rs:141-144 | releasing drops the DUT and the build and keeps everything else |
| SimServer.RequestServer.ReloadSimulationResult | oombak_sim/src/sim.rs:198-209 | a reload resets the time to 0 and makes one empty wave per DUT signal, or no waves when the query fails |
| SimServer.RequestServer.AppendNewValuesUntil | oombak_sim/src/sim.rs:228-263 | when every read succeeds, each wave grows by its signal's value up to the end time and the total time becomes the end time; when a read fails nothing changes |
| SimServer.RequestServer.Run | oombak_sim/src/sim.rs:211-219 | corrected loop (see Findings): the DUT and the waves end as `RunFrom` says: step after step the DUT runs for the time still missing and every wave is extended by the DUT's reading up to the time reached, the first failed run or read being the error; a successful run ends exactly at the old time plus the duration, with the DUT's clock there too, and keeps the waves' history |
| SimServer.RequestServer.Step | oombak_sim/src/sim.rs:213-217 | corrected step, asking the DUT for the time still missing: the DUT and the simulation time move together, past the old time and not beyond the target, and the waves become the old waves extended by the DUT's readings up to that time (`AppendedUntil`); the rest of the run is `RunFrom` from there, and a failed step is `RunFrom`'s error |
| SimServer.RequestServer.ModifyProbe | oombak_sim/src/sim.rs:177-189 | without a probe it is DutNotLoaded; otherwise the probe takes every addition, then every removal, keeping the changes made before a failure, and the first error is returned |
| SimServer.RequestServer.RebuildSvPath | oombak_sim/src/sim.rs:191-196 | without a path or a probe the rebuild is DutNotLoaded; otherwise it is the build of the path with the probe |
| SimServer.RequestServer.LoadDut | oombak_sim/src/sim.rs:146-158 | served in any state: a failed build changes nothing; otherwise the build is stored; if the library opens, the DUT at time 0 with no inputs, the path and the probe are installed and the result is reset to time 0, succeeding exactly when the query does; after a build the DUT clock and the simulation time agree again |
| SimServer.RequestServer.ModifyProbePoints | oombak_sim/src/sim.rs:160-175 | served in any state: without a probe it is DutNotLoaded and nothing changes; otherwise the probe is modified, kept even if a later step fails, and a success rebuilds at the same path, reopens the DUT at time 0 and resets the result; the clocks agree afterwards whenever they agreed before or a rebuild happened |
| SimServer.RequestServer.SetSignal | oombak_sim/src/sim.rs:265-267 | without a DUT it is DutNotLoaded; a write the library accepts is recorded by the DUT, with its clock kept; a refused one is the DUT's error; the result and everything else stay |
| SimServer.RequestServer.ServeRun | oombak_sim/src/sim.rs:104-110 | one response is notified; it is the new time exactly when the corrected run succeeds, which then ends at the old time plus the duration with the DUT and the waves as `RunFrom` records them, and otherwise `RunFrom`'s error; the history, probe, path and build are kept |
| SimServer.RequestServer.ServeSetSignal | oombak_sim/src/sim.rs:112-118 | one response is notified: Empty when the DUT takes the value, which the DUT then records among its inputs with its clock kept, and the DUT's error otherwise; nothing else changes |
| SimServer.RequestServer.ServeLoad | oombak_sim/src/sim.rs:120-126 | served in any state; one response is notified; a failed build answers its error and changes nothing; otherwise the build is kept, the clocks agree, and the answer is Loaded exactly when the library opens and the query succeeds, with the new DUT, path, probe and empty waves at time 0 installed |
| SimServer.RequestServer.ServeModifyProbePoints | oombak_sim/src/sim.rs:128-134 | served in any state; one response is notified; without a probe it is DutNotLoaded and nothing changes; otherwise the probe takes the modification, and a Loaded answer comes with the rebuilt DUT at time 0, reset waves and the clocks agreeing |
| SimServer.RequestServer.ServeSimulationResult | oombak_sim/src/sim.rs:136-139 | the one response notified is the waves with the total time, and nothing else changes |
| SimServer.RequestServer.Serve | oombak_sim/src/sim.rs:52-76 | the served id becomes the request's; Terminate stops the server after releasing its DUT and build, notifying nobody; every other request notifies exactly one response with the request's id, as the handler for its kind states; only a run needs the DUT clock to equal the simulation time, and every other request keeps that agreement |
| Oscillators.NewOscillator | oombak_local_sim/src/oscillator.rs:55-70 | a new oscillator first drives its high value, one period after the current time |
| Oscillators.FiringTimes | oombak_local_sim/src/oscillator.rs:72-83 | after k+1 trips the next trigger time has moved by k+1 periods, and only the time and state have changed |
| Oscillators.FiringStates | oombak_local_sim/src/oscillator.rs:72-83 | the state alternates on every trip and each trip yields the value of the state it leaves |
| Oscillators.FiringsAlternate | oombak_local_sim/src/oscillator.rs:55-83 | a new oscillator yields high, low, high, … at its start time plus one, two, three … periods |
| Oscillators.StrLessIrreflexive | oombak_local_sim/src/oscillator.rs:86-93 | the name order used to break ties is irreflexive |
| Oscillators.StrLessTransitive | oombak_local_sim/src/oscillator.rs:86-93 | the name order is transitive |
| Oscillators.StrLessTotal | oombak_local_sim/src/oscillator.rs:86-93 | two different names are ordered one way or the other |
| Oscillators.GreaterIrreflexive | oombak_local_sim/src/oscillator.rs:86-93 | no oscillator ranks above itself |
| Oscillators.GreaterTransitive | oombak_local_sim/src/oscillator.rs:86-93 | the queue order (earlier trigger first, then greater name) is transitive |
| Oscillators.GreaterTotal | oombak_local_sim/src/oscillator.rs:86-93 | oscillators on different signals are always ordered, so the queue's top is determined |
| Oscillators.Top | oombak_local_sim/src/oscillator.rs:36-38 | a non-empty queue has an element that nothing ranks above |
| Oscillators.TopUnique | oombak_local_sim/src/oscillator.rs:86-93 | with one oscillator per signal, an element nothing ranks above is the top |
| Oscillators.WithoutSpec | oombak_local_sim/src/oscillator.rs:32-34 | retain keeps exactly the oscillators on other signals, and keeps the names unique |
| Oscillators.OscillatorGroup.constructor | oombak_local_sim/src/oscillator.rs:5-8 | a new group has an empty queue |
| Oscillators.OscillatorGroup.Remove | oombak_local_sim/src/oscillator.rs:32-34 | removal drops exactly the oscillators on the named signal |
| Oscillators.OscillatorGroup.Insert | oombak_local_sim/src/oscillator.rs:27-30 | insertion replaces any oscillator on the same signal, so the group keeps at most one per signal |
| Oscillators.OscillatorGroup.NextTriggerTime | oombak_local_sim/src/oscillator.rs:36-38 | None exactly when the group is empty, otherwise the earliest trigger time in the queue |
| Oscillators.OscillatorGroup.TryPop | oombak_local_sim/src/oscillator.rs:40-51 | when the top is due at the current time, it trips, its signal and value are returned and it goes back with its next time; otherwise None and nothing changes |
| Oscillators.PopsEarliestGreatestName | oombak_local_sim/src/oscillator.rs:86-93 | the top is due first, and among those due at the same time it has the greatest signal name |
| BitvecStr.Resized | oombak_tui/src/utils/bitvec_str.rs:112-121 | the value is cut or extended to the width; extension repeats the top bit when signed and uses 0 otherwise |
| BitvecStr.ResizedPrefix | oombak_tui/src/utils/bitvec_str.rs:112-121 | resizing to a smaller width gives a prefix of resizing to a larger one |
| BitvecStr.ResizeComposes | oombak_tui/src/utils/bitvec_str.rs:112-121 | widening in two steps is widening once |
| BitvecStr.ResizeKeepsValue | oombak_tui/src/utils/bitvec_str.rs:112-121 | widening keeps the unsigned value, and keeps the two's-complement value when signed |
| BitvecStr.BinaryString | oombak_tui/src/utils/bitvec_str.rs:61-64 | one character per bit of the width, most significant first, each the bit's digit |
| BitvecStr.RoundUpGroups | oombak_tui/src/utils/bitvec_str.rs:260-266 | the rounded width is at least the width and holds exactly the whole groups the width needs |
| BitvecStr.HexDigit | oombak_tui/src/utils/bitvec_str.rs:214-233 | four bits make one digit from 0-9 or A-F |
| BitvecStr.HexadecimalString | oombak_tui/src/utils/bitvec_str.rs:66-80 | one hexadecimal digit per four bits of the width, rounded up |
| BitvecStr.HexadecimalUpperCase | oombak_tui/src/utils/bitvec_str.rs:214-233 | every hexadecimal digit shown is 0-9 or an upper-case A-F |
| BitvecStr.OctalString | oombak_tui/src/utils/bitvec_str.rs:82-94 | one octal digit per three bits of the width, rounded up |
| BitvecStr.DecimalStringValue | oombak_tui/src/utils/bitvec_str.rs:96-110 | a signed value with its top bit set is shown as minus its two's-complement magnitude, at most 2^127; any other value is shown as its unsigned 128-bit value, below 2^127 when signed |
| BitvecStr.ParseBinary | oombak_tui/src/utils/bitvec_str.rs:142-152 | binary text is read with its last character as bit 0, and any character other than 0 or 1 is an error |
| BitvecStr.ExpandDigitsOutcome | oombak_tui/src/utils/bitvec_str.rs:158-176 | expanding digits succeeds exactly when every digit is valid, and otherwise fails with the error of the first invalid digit |
| BitvecStr.ExpandDigitsLength | oombak_tui/src/utils/bitvec_str.rs:158-176 | digits that each code k binary digits expand to k binary digits apiece |
| BitvecStr.ExpandDigitsAt | oombak_tui/src/utils/bitvec_str.rs:158-176 | binary digit t of digit j sits at position k * j + t of the expansion |
| BitvecStr.ExpandedDigitsRead | oombak_tui/src/utils/bitvec_str.rs:132-140 | expanded hexadecimal or octal digits always read as binary, k bits per digit |
| BitvecStr.HexDigitRoundTrip | oombak_tui/src/utils/bitvec_str.rs:178-233 | the bits of a shown hexadecimal digit read back as those four bits |
| BitvecStr.OctDigitRoundTrip | oombak_tui/src/utils/bitvec_str.rs:200-246 | the bits of a shown octal digit read back as those three bits |
| BitvecStr.HexCodes | oombak_tui/src/utils/bitvec_str.rs:178-198 | a valid hexadecimal digit expands to four binary characters; anything else gives the "is not a valid hexadecimal digit" error |
| BitvecStr.OctCodes | oombak_tui/src/utils/bitvec_str.rs:200-212 | a valid octal digit expands to three binary characters; anything else gives the "is not a valid octal digit" error |
| BitvecStr.ParseHexadecimalOutcome | oombak_tui/src/utils/bitvec_str.rs:132-135 | hexadecimal text is accepted exactly when every digit is valid, giving four bits per digit; otherwise the error names the first invalid digit |
| BitvecStr.ParseOctalOutcome | oombak_tui/src/utils/bitvec_str.rs:137-140 | octal text is accepted exactly when every digit is valid, giving three bits per digit; otherwise the error names the first invalid digit |
| BitvecStr.ParseHexadecimal | oombak_tui/src/utils/bitvec_str.rs:132-135 | the loop computes the hexadecimal reading |
| BitvecStr.ParseOctal | oombak_tui/src/utils/bitvec_str.rs:137-140 | the loop computes the octal reading |
| BitvecStr.GroupsRoundTrip | oombak_tui/src/utils/bitvec_str.rs:132-140 | digits that each code, most significant bit first, one group of k bits of a value read back as that value's low bits |
| BitvecStr.HexDigitsCoded | oombak_tui/src/utils/bitvec_str.rs:66-80 | each hexadecimal digit shown codes its group of four bits of the value resized to whole digits |
| BitvecStr.OctDigitsCoded | oombak_tui/src/utils/bitvec_str.rs:82-94 | each octal digit shown codes its group of three bits of the value resized to whole digits |
| BitvecStr.ParseNonDecimal | oombak_tui/src/utils/bitvec_str.rs:123-130 | the second character picks binary, hexadecimal or octal for the rest; any other is an unknown radix identifier |
| BitvecStr.DigitValue | oombak_tui/src/utils/bitvec_str.rs:251 | a digit's value is below the radix |
| BitvecStr.Accumulate | oombak_tui/src/utils/bitvec_str.rs:251 | the digits accumulated so far never exceed the largest 128-bit value |
| BitvecStr.FromStrRadix | oombak_tui/src/utils/bitvec_str.rs:251 | a number read in the radix fits in 128 bits |
| BitvecStr.AccumulateAppend | oombak_tui/src/utils/bitvec_str.rs:251 | reading two pieces of text one after the other is reading their concatenation |
| BitvecStr.NatToStringDigits | oombak_tui/src/utils/bitvec_str.rs:104-109 | a number is shown with decimal digits only and no leading zero |
| BitvecStr.NatToStringRoundTrip | oombak_tui/src/utils/bitvec_str.rs:104-109 | a shown number below 2^128 reads back as itself in base 10 |
| BitvecStr.FirstInvalid | oombak_tui/src/utils/bitvec_str.rs:251 | text whose first character is neither a sign nor a digit is an invalid digit |
| BitvecStr.ParseRadix | oombak_tui/src/utils/bitvec_str.rs:248-258 | the corrected loop computes the reading of every one of the 128 bits |
| BitvecStr.ParseRadixValue | oombak_tui/src/utils/bitvec_str.rs:248-258 | both readings accept exactly the numbers that fit in 128 bits; the corrected one has 128 bits with that value, the code as written only its low 16 bits |
| BitvecStr.AsWrittenDropsHighBits | oombak_tui/src/utils/bitvec_str.rs:254-256 | "65536" reads as 65536 but the code as written gives 16 zero bits |
| BitvecStr.Parse | oombak_tui/src/utils/bitvec_str.rs:29-39 | empty text is an error; text starting with 0 and longer than one character is read by its radix prefix, anything else as decimal (decimal text through the corrected parse_radix, see Findings) |
| BitvecStr.ParseBinaryPrefixed | oombak_tui/src/utils/bitvec_str.rs:123-130 | text after 0b is read as binary digits |
| BitvecStr.ParseHexadecimalPrefixed | oombak_tui/src/utils/bitvec_str.rs:123-130 | text after 0x is read as hexadecimal digits |
| BitvecStr.ParseOctalPrefixed | oombak_tui/src/utils/bitvec_str.rs:123-130 | text after 0o is read as octal digits |
| BitvecStr.BinaryRoundTrip | oombak_tui/src/utils/bitvec_str.rs:29-39 | binary text shown reads back, after 0b, as the value resized to the width |
| BitvecStr.HexadecimalRoundTrip | oombak_tui/src/utils/bitvec_str.rs:29-39 | hexadecimal text shown reads back, after 0x, as the value resized to whole digits |
| BitvecStr.OctalRoundTrip | oombak_tui/src/utils/bitvec_str.rs:29-39 | octal text shown reads back, after 0o, as the value resized to whole digits |
| BitvecStr.DecimalRoundTrip | oombak_tui/src/utils/bitvec_str.rs:96-110 | a non-negative decimal shown reads back as the value at 128 bits; a negative one does not read back (decimal text through the corrected parse_radix, see Findings) |
| BitvecStr.NegativeDecimalRejected | oombak_tui/src/utils/bitvec_str.rs:248-258 | text starting with a minus sign and more after it is not read as a number |
| BitvecStr.DecimalTextRoundTrip | oombak_tui/src/utils/bitvec_str.rs:248-258 | the decimal text of a number that fits in 128 bits reads back as that number's 128 bits (decimal text through the corrected parse_radix, see Findings) |
| BitvecStr.FormatRoundTrip | oombak_tui/src/utils/bitvec_str.rs:20-27 | every shown value reads back, after its radix prefix, as the value resized to whole digits (128 bits for decimal), except a negative decimal (decimal text through the corrected parse_radix, see Findings) |
| BitvecStr.BinaryFormatRoundTrip | oombak_tui/src/utils/bitvec_str.rs:20-27 | binary text shown reads back, after 0b, as the value at the width |
| BitvecStr.HexadecimalFormatRoundTrip | oombak_tui/src/utils/bitvec_str.rs:20-27 | hexadecimal text shown reads back, after 0x, as the value resized to whole digits |
| BitvecStr.OctalFormatRoundTrip | oombak_tui/src/utils/bitvec_str.rs:20-27 | octal text shown reads back, after 0o, as the value resized to whole digits |
| BitvecStr.DecimalFormatRoundTrip | oombak_tui/src/utils/bitvec_str.rs:20-27 | a non-negative decimal shown reads back as the value at 128 bits (decimal text through the corrected parse_radix, see Findings) |
| BitvecStr.ParseLeadingZero | oombak_tui/src/utils/bitvec_str.rs:29-39 | a lone 0 is decimal zero; 0 followed by anything but b, x or o is an unknown radix (decimal text through the corrected parse_radix, see Findings) |
| LegacyBitvecStr.Resized | ombak-tui/src/utils/bitvec_str.rs:48-57 | the value is cut or extended to the width; a signed extension repeats bit 0, the lowest bit |
| LegacyBitvecStr.BinaryString | ombak-tui/src/utils/bitvec_str.rs:43-46 | one character per bit of the width, most significant first |
| LegacyBitvecStr.DefaultShowsNothing | ombak-tui/src/utils/bitvec_str.rs:23-31 | the default option has width 0 and shows any value as empty text |
| LegacyBitvecStr.AgreesWithLater | ombak-tui/src/utils/bitvec_str.rs:43-57 | the older front end shows the same binary text as the current one whenever the lowest and highest bits agree or the value is unsigned |
| LegacyBitvecStr.FillFromLowestBit | ombak-tui/src/utils/bitvec_str.rs:48-57 | [1,0] at width 4 signed is shown as 1101 (value -3) where the value is 1 and the current front end shows 0001 |
| Words.WordLength | oombak_tui/src/backend/interpreter.rs:17 | a word runs up to the first white space character or the end of the text |
| Words.SplitWhitespaceWords | oombak_tui/src/backend/interpreter.rs:17 | splitting yields non-empty words without white space that together hold every other character in order; nothing comes out exactly when the text is blank |
| Words.SplitJoin | oombak_tui/src/backend/interpreter.rs:17 | words joined by single spaces split back into the same words |
| Interpreter.ParseU64 | oombak_tui/src/backend/interpreter.rs:36 | a duration read from text fits in 64 bits |
| Interpreter.InterpretOutcome | oombak_tui/src/backend/interpreter.rs:16-59 | blank text is exactly Noop; quit and help are read by their word; an unknown first word is an error naming it; run, load and set need exactly one, one and two arguments and otherwise report their arity message; a run holds the duration its argument reads as; a set holds the value its text parses to, and a value that does not parse gives that parse error (decimal text through the corrected parse_radix, see Findings) |
| Interpreter.ParseU64Decimal | oombak_tui/src/backend/interpreter.rs:36-40 | decimal text of a number reads back as that number exactly when it fits in 64 bits |
| Interpreter.DecimalTextReads | oombak_tui/src/utils/bitvec_str.rs:246-256 | the decimal text of a number is read back as that number when it fits in 128 bits, and otherwise as the overflow error (decimal text through the corrected parse_radix, see Findings) |
| Interpreter.RunText | oombak_tui/src/backend/interpreter.rs:32-41 | "run" and a number is a run of that duration when it fits in 64 bits, and otherwise the cannot-parse error |
| Interpreter.LoadText | oombak_tui/src/backend/interpreter.rs:43-49 | "load" and a path without spaces is a load of that path |
| Interpreter.SetText | oombak_tui/src/backend/interpreter.rs:51-59 | "set", a name and a value shown in binary with its 0b prefix is a set of that name to that value |
| LegacyInterpreter.InterpretOutcome | ombak-tui/src/backend/interpreter.rs:7-37 | blank text is exactly Noop; any first word other than run or load is an error naming it; run and load need exactly one argument; a run holds the duration its argument reads as and a load the word given |
| LegacyInterpreter.AgreesWithLater | ombak-tui/src/backend/interpreter.rs:7-18 | the older command line and the current one agree on blank lines, runs, loads and unknown words |
| LegacyInterpreter.RunText | ombak-tui/src/backend/interpreter.rs:20-29 | "run" and a number is a run of that duration when it fits in 64 bits, and otherwise the cannot-parse error |
| ScrollStates.LastIsAtEnd | oombak_tui/src/widgets/scroll_state.rs:51-54 | last puts the window at the end with the selection on the viewport's last row and in view, on the last item when the content fills the viewport |
| ScrollStates.SetLengthSpec | oombak_tui/src/widgets/scroll_state.rs:21-33 | setting a length sets it and moves to the last window exactly when the selection falls outside; the selection stays in view |
| ScrollStates.NextSpec | oombak_tui/src/widgets/scroll_state.rs:35-41 | next keeps the selection in view and the lengths unchanged, and moves the selected item down by one unless it is at the end, where it stays put |
| ScrollStates.NextInsideContent | oombak_tui/src/widgets/scroll_state.rs:35-41 | on a window within its content, next moves to the following item until the last one and then stays |
| ScrollStates.PrevSpec | oombak_tui/src/widgets/scroll_state.rs:43-49 | prev moves the selected item up by one, staying put at the first item, and keeps the lengths and the selection in view |
| ScrollStates.NextNAdd | oombak_tui/src/widgets/scroll_state.rs:35-41 | moving down a then b times is moving down a + b times |
| ScrollStates.PrevNAdd | oombak_tui/src/widgets/scroll_state.rs:43-49 | moving up a then b times is moving up a + b times |
| ScrollStates.NextWithinViewport | oombak_tui/src/widgets/scroll_state.rs:38-40 | inside the viewport, next only moves the selection |
| ScrollStates.NextScrolls | oombak_tui/src/widgets/scroll_state.rs:36-37 | at the viewport's last row and before the end, next only scrolls the window |
| ScrollStates.PrevWithinViewport | oombak_tui/src/widgets/scroll_state.rs:46-48 | inside the viewport, prev only moves the selection |
| ScrollStates.PrevScrolls | oombak_tui/src/widgets/scroll_state.rs:44-45 | at the viewport's first row, prev only scrolls the window back |
| ScrollStates.ScrollPastEndAndBack | oombak_tui/src/widgets/scroll_state.rs:21-49 | 100 items in a 50-row viewport: 55 steps down leave the window scrolled by 6 with the selection on its last row (item 55), and 50 steps back leave it scrolled by 5 with the selection on its first row (item 5) |
| ScrollStates.EmptyViewportOverflow | oombak_tui/src/widgets/scroll_state.rs:64-68 | with an empty viewport, new(1) then next then next reaches is_at_end's overflowing subtraction, where the corrected window stays put |
| ScrollStates.AsWrittenNextAgrees | oombak_tui/src/widgets/scroll_state.rs:35-41 | the code as written agrees with the corrected next wherever it does not overflow, and overflows exactly for a non-empty content scrolled past its end in an empty viewport |
| ScrollStates.ScrollState.constructor | oombak_tui/src/widgets/scroll_state.rs:10-15 | new holds the content length with everything else 0 |
| ScrollStates.ScrollState.Last | oombak_tui/src/widgets/scroll_state.rs:51-54 | the state becomes the last window |
| ScrollStates.ScrollState.SetContentLength | oombak_tui/src/widgets/scroll_state.rs:21-26 | the state takes the new content length, moving to the last window when the selection falls outside |
| ScrollStates.ScrollState.SetViewportLength | oombak_tui/src/widgets/scroll_state.rs:28-33 | the state takes the new viewport length, moving to the last window when the selection falls outside |
| ScrollStates.ScrollState.Next | oombak_tui/src/widgets/scroll_state.rs:35-41 | the state moves one item down as the corrected next does |
| ScrollStates.ScrollState.Prev | oombak_tui/src/widgets/scroll_state.rs:43-49 | the state moves one item up |
| CommandLines.Utf8Length | oombak_tui/src/widgets/command_line.rs:139-141 | a character takes one to four bytes in UTF-8 |
| CommandLines.ByteLength | oombak_tui/src/widgets/command_line.rs:112 | a text has at least as many bytes as characters |
| CommandLines.AsciiByteLength | oombak_tui/src/widgets/command_line.rs:112 | an ASCII text has exactly as many bytes as characters |
| CommandLines.GetUtf8IndexSpec | oombak_tui/src/widgets/command_line.rs:139-141 | a character index has a byte offset exactly when it is inside the text, and that offset is the byte length of the characters before it; for ASCII it is the index itself |
| CommandLines.PutSpec | oombak_tui/src/widgets/command_line.rs:108-114 | put inserts the character at the cursor, keeps the rest of the text around it and moves the cursor past it |
| CommandLines.PutThenBackspace | oombak_tui/src/widgets/command_line.rs:108-124 | put followed by backspace gives back the line |
| CommandLines.CursorStaysInText | oombak_tui/src/widgets/command_line.rs:102-136 | every edit keeps the cursor within the text; backspace removes one character except at the start; the cursor moves right up to the end of the text and left down to 0 without changing the text |
| CommandLines.AsciiMoveRightAgrees | oombak_tui/src/widgets/command_line.rs:126-131 | on ASCII text the code as written moves right exactly as the corrected move does |
| CommandLines.MoveRightPastMultiByte | oombak_tui/src/widgets/command_line.rs:126-131 | on "é" with the cursor at its end, the code as written moves the cursor to 2, where the next backspace's offset lookup fails; the corrected move stays at 1 |
| CommandLines.EditorSpec | oombak_tui/src/widgets/command_line.rs:102-136 | every edit of the line and its scroll window keeps the cursor within the text; put then backspace gives back the line; after put or backspace the window's content is the text's length in bytes; clear empties it |
| CommandLines.CommandLineState.constructor | oombak_tui/src/widgets/command_line.rs:17-22 | a new command line is empty with the cursor and the window at 0 |
| CommandLines.CommandLineState.Clear | oombak_tui/src/widgets/command_line.rs:102-106 | the text and cursor are cleared and the window's content set to 0 |
| CommandLines.CommandLineState.Put | oombak_tui/src/widgets/command_line.rs:108-114 | the character is inserted at the cursor, the window's content becomes the byte length and the window moves down once; the cursor stays in the text |
| CommandLines.CommandLineState.Backspace | oombak_tui/src/widgets/command_line.rs:116-124 | the character before the cursor is removed, the window's content becomes the byte length and the window moves up once; the cursor stays in the text |
| CommandLines.CommandLineState.MoveCursorRight | oombak_tui/src/widgets/command_line.rs:126-131 | corrected (see Findings): the cursor moves one character right up to the end of the text, where the source bounds it by the text's length in bytes, and the window moves down once |
| CommandLines.CommandLineState.MoveCursorLeft | oombak_tui/src/widgets/command_line.rs:133-136 | the cursor moves one character left down to 0 and the window moves up once |
| DropDowns.NewSpec | oombak_tui/src/widgets/dropdown.rs:58-66 | a new list is closed with nothing selected, keeps its items, and shows its first item, or nothing when it has none |
| DropDowns.SelectedSpec | oombak_tui/src/widgets/dropdown.rs:68-77 | the shown item is None exactly when there are no items; otherwise it is one of the items: the selected one, or the first when nothing is selected |
| DropDowns.SelectSpec | oombak_tui/src/widgets/dropdown.rs:102-108 | selecting fails with "Index out of range" exactly when the index is past the items; otherwise only the selection changes and the chosen item is shown |
| DropDowns.OpenCloseSpec | oombak_tui/src/widgets/dropdown.rs:83-92 | open opens the list and selects the first item when nothing is selected; close only closes it; opening twice is opening once |
| DropDowns.DownUpSpec | oombak_tui/src/widgets/dropdown.rs:94-100 | moving down and up keeps the items and whether the list is open; down then up, and up then down, give back the selection away from the ends |
| DropDowns.DropDownState.constructor | oombak_tui/src/widgets/dropdown.rs:58-66 | the state is a new list of the items |
| DropDowns.DropDownState.Open | oombak_tui/src/widgets/dropdown.rs:83-88 | the state becomes the opened list |
| DropDowns.DropDownState.Close | oombak_tui/src/widgets/dropdown.rs:90-92 | the state becomes the closed list |
| DropDowns.DropDownState.MoveDown | oombak_tui/src/widgets/dropdown.rs:94-96 | the selection moves down as the list widget's select_next does |
| DropDowns.DropDownState.MoveUp | oombak_tui/src/widgets/dropdown.rs:98-100 | the selection moves up as the list widget's select_previous does |
| DropDowns.DropDownState.SelectIndex | oombak_tui/src/widgets/dropdown.rs:102-108 | an index past the items is an error that changes nothing; otherwise Ok and the index is selected |
| Forms.Entries | oombak_tui/src/widgets/form.rs:351-359 | one entry per field, in order: a line field's text, a list field's shown item or empty text |
| Forms.MaxNameLength | oombak_tui/src/widgets/form.rs:120-127 | the longest field name in bytes, or 0 without fields |
| Forms.NewFormSpec | oombak_tui/src/widgets/form.rs:230-240 | a new form keeps its fields, highlights the first one when there is one, and is valid when its fields are |
| Forms.NewFieldsValid | oombak_tui/src/widgets/form.rs:212-227 | a new text field starts empty and a new list field shows its first item |
| Forms.MoveHighlight | oombak_tui/src/widgets/form.rs:242-275 | without an open list highlighted, down moves the highlight one place along fields, Apply, Cancel, stopping at Cancel; up moves it back, stopping at the first field, and from either button goes to the last field |
| Forms.OpenDropDownTakesUpDown | oombak_tui/src/widgets/form.rs:242-275 | with an open list highlighted, up and down move only that list's selection |
| Forms.LeftRightSpec | oombak_tui/src/widgets/form.rs:277-301 | on the buttons, left goes to Apply and right to Cancel; on a list nothing changes; on a line field they move its cursor and keep the highlight |
| Forms.EditSpec | oombak_tui/src/widgets/form.rs:303-313 | typing and backspace change only the highlighted line field, keeping its name, and typing then backspace gives back its text; elsewhere they do nothing |
| Forms.EnterSpec | oombak_tui/src/widgets/form.rs:315-323 | enter opens or closes the highlighted list, so pressing it twice gives back the list's state; elsewhere it does nothing |
| Forms.OperationsKeepValid | oombak_tui/src/widgets/form.rs:242-323 | every key operation keeps the form valid |
| Forms.FieldsValidAfter | oombak_tui/src/widgets/form.rs:361-377 | replacing a field's state with a valid one keeps the form valid |
| Forms.FormState.constructor | oombak_tui/src/widgets/form.rs:230-240 | the state is the new form of the fields |
| Forms.FormState.TryGetDropDownFromSelected | oombak_tui/src/widgets/form.rs:361-368 | a field index exactly when a list field is highlighted, and then the highlighted one |
| Forms.FormState.TryGetCommandLineFromSelected | oombak_tui/src/widgets/form.rs:370-377 | a field index exactly when a line field is highlighted, and then the highlighted one |
| Forms.FormState.MoveUp | oombak_tui/src/widgets/form.rs:242-257 | the state moves up as the form's up does |
| Forms.FormState.MoveDown | oombak_tui/src/widgets/form.rs:259-275 | the state moves down as the form's down does |
| Forms.FormState.MoveLeft | oombak_tui/src/widgets/form.rs:277-288 | the state moves left as the form's left does |
| Forms.FormState.MoveRight | oombak_tui/src/widgets/form.rs:290-301 | the state moves right as the form's right does |
| Forms.FormState.PutChar | oombak_tui/src/widgets/form.rs:303-307 | the character is typed into the highlighted line field, if any |
| Forms.FormState.DeleteChar | oombak_tui/src/widgets/form.rs:309-313 | backspace is applied to the highlighted line field, if any |
| Forms.FormState.PressEnter | oombak_tui/src/widgets/form.rs:315-323 | the highlighted list is opened or closed, if any |
| KeyMaps.StringLessIrreflexive | oombak_tui/src/widgets/key_maps.rs:19-23 | the description text order is irreflexive |
| KeyMaps.StringLessTransitive | oombak_tui/src/widgets/key_maps.rs:19-23 | the description text order is transitive |
| KeyMaps.StringLessTotal | oombak_tui/src/widgets/key_maps.rs:19-23 | two different texts are ordered one way or the other |
| KeyMaps.DescOrder | oombak_tui/src/widgets/key_maps.rs:19-23 | descriptions, ordered by priority and then text, form a strict total order |
| KeyMaps.ConstructorsSpec | oombak_tui/src/widgets/key_maps.rs:116-161 | a description from text has priority 0, prio replaces the priority, and a key from a character or a code has no modifiers |
| KeyMaps.Insert | oombak_tui/src/widgets/key_maps.rs:31-33 | inserting binds the key to the description and keeps every other binding |
| KeyMaps.MergeMappings | oombak_tui/src/widgets/key_maps.rs:35-43 | the merge holds the keys of both maps, with the higher map's description wherever both bind a key |
| KeyMaps.Find | oombak_tui/src/widgets/key_maps.rs:66 | the index of the entry with the description, or None when no entry has it |
| KeyMaps.InsertPosSpec | oombak_tui/src/widgets/key_maps.rs:69 | a new description goes after every smaller one and before every greater one |
| KeyMaps.InsertSortedKeepsOrder | oombak_tui/src/widgets/key_maps.rs:69 | inserting a new description keeps the entries in description order |
| KeyMaps.AppendKeyStep | oombak_tui/src/widgets/key_maps.rs:66-67 | adding a key to the entry of its description keeps the partial reversal correct |
| KeyMaps.NewEntryStep | oombak_tui/src/widgets/key_maps.rs:68-70 | a key whose description is new starts its own entry, in order, keeping the partial reversal correct |
| KeyMaps.InsertSortedAt | oombak_tui/src/widgets/key_maps.rs:69 | the insert puts the new entry at the insertion point and moves every later entry up by one |
| KeyMaps.InsertKeepsEntries | oombak_tui/src/widgets/key_maps.rs:68-70 | a new entry for one key keeps every entry non-empty and free of repeats, each key under its own description |
| KeyMaps.InsertKeepsListed | oombak_tui/src/widgets/key_maps.rs:68-70 | every key listed before the insert is still listed after it |
| KeyMaps.Reverse | oombak_tui/src/widgets/key_maps.rs:62-74 | the reversed map lists each description once, in ascending order, each with exactly the keys bound to it |
| KeyMaps.ReversedSpec | oombak_tui/src/widgets/key_maps.rs:62-74 | in a reversal each entry's keys are exactly the keys bound to its description, every key is listed once, and the descriptions are exactly the map's values |
| KeyMaps.HelpKeyFirst | oombak_tui/src/components/root.rs:227-230 | priority -1 puts the help key alone in the first entry of the help bar whenever every other priority is at least 0 |
| KeyMaps.KeyIdStringSpec | oombak_tui/src/widgets/key_maps.rs:86-114 | a key is shown as its key text alone exactly when it has no modifiers; modifiers are joined by + in front of a dash, and the colon is shown as <colon> |
| KeyMaps.KeyIdsToStringIsJoin | oombak_tui/src/widgets/key_maps.rs:164-176 | the keys of an entry are shown joined by commas, with one key shown alone and none as empty text |
| Selectors.MaxSelectionTextWidth | oombak_tui/src/components/selector.rs:128-134 | the longest entry name in bytes, or 0 without entries |
| Selectors.MaxContentWidthSpec | oombak_tui/src/components/selector.rs:124-126 | the content width is 10 more than the longest of the title and the entry names |
| Selectors.SetDisabledSpec | oombak_tui/src/components/selector.rs:56-72 | enabling or disabling reports whether the index names an entry and changes only that entry's flag; enabling then disabling, and the reverse, give back the selector |
| Selectors.FocusSpec | oombak_tui/src/components/selector.rs:149-154 | Enter gives the focus to the selected entry exactly when it is enabled, and then the focused child is that entry's component; gaining the focus back clears the child and gives the focus up |
| Selectors.KeysSpec | oombak_tui/src/components/selector.rs:145-160 | Down and j move the selection down, Up and k move it up, down then up gives it back, q releases the focus and changes nothing, and every such key is in the selector's key map |
| Selectors.Selector.constructor | oombak_tui/src/components/selector.rs:37-46 | the state is a new selector of the entries: no title, nothing selected, no child |
| Selectors.Selector.SetTitle | oombak_tui/src/components/selector.rs:48-50 | only the title changes |
| Selectors.Selector.SetSelection | oombak_tui/src/components/selector.rs:52-54 | only the entries change |
| Selectors.Selector.Enable | oombak_tui/src/components/selector.rs:56-63 | the entry at the index is enabled and true is returned, or false and nothing changes |
| Selectors.Selector.Disable | oombak_tui/src/components/selector.rs:65-72 | the entry at the index is disabled and true is returned, or false and nothing changes |
| Selectors.Selector.TrySelectDefaultItem | oombak_tui/src/components/selector.rs:112-116 | the first entry is selected when nothing is |
| Selectors.Selector.HandleKeyEvent | oombak_tui/src/components/selector.rs:145-160 | the state and result are those of the selector's key handling |
| Selectors.Selector.HandleFocusGained | oombak_tui/src/components/selector.rs:166-169 | the child is cleared and the focus released |
| Models.NewSpecSpec | oombak_tui/src/components/models.rs:19-57 | a new specification has one entry per wave, in order, each one row high, binary and signed, with zoom and time step 1 and the result's current time; it is empty exactly when there are no waves |
| Models.UpdateSpec | oombak_tui/src/components/models.rs:40-52 | update keeps as many entries as both the waves and the old entries have, each taking its new wave and keeping its drawing settings; the zoom stays and the time step and total time are the result's; updating twice with one result is updating once |
| Models.UpdateOfNew | oombak_tui/src/components/models.rs:20-52 | updating a new specification with the result it came from changes only the time step |
| Models.SimulationSpecState.constructor | oombak_tui/src/components/models.rs:20-38 | the state is the new specification of the result |
| Models.SimulationSpecState.UpdateFrom | oombak_tui/src/components/models.rs:40-52 | the state becomes its update with the result |
| WaveViewers.SetSimulationSpec | oombak_tui/src/components/wave_viewer.rs:36-49 | with waves, the first row is selected and the content length, in the viewer and in the waveforms' window, becomes (4 + zoom) times the first wave's run count, the position kept; without waves only the simulation changes |
| WaveViewers.SetSimulationKeepsStaleSelection | oombak_tui/src/components/wave_viewer.rs:36-49 | a viewer with a row selected that is given a simulation without waves keeps a selection that names no row, and may not scroll down |
| WaveViewers.ScrollRightLeftSpec | oombak_tui/src/components/wave_viewer.rs:51-65 | right and left move the position by one within the content and step the waveforms' window; right then left, and left then right, give back the position away from the ends; the selection is kept |
| WaveViewers.ScrollNSpec | oombak_tui/src/components/wave_viewer.rs:51-65 | k steps right or left move the position by k, stopping at the content's ends |
| WaveViewers.ScrollDownUpSpec | oombak_tui/src/components/wave_viewer.rs:67-80 | down and up move the selected row by one, stopping at the last and first rows, keep it in range and change nothing else; down then up, and up then down, give back the row away from the ends |
| WaveViewers.HighlightedUnitTimeSpec | oombak_tui/src/components/wave_viewer.rs:82-84 | the highlighted unit time is the one whose 4 * zoom cells hold the position, and it follows the position's direction when scrolling |
| WaveViewers.WaveViewer.constructor | oombak_tui/src/components/wave_viewer.rs:19-28 | the state is the default viewer |
| WaveViewers.WaveViewer.Set | oombak_tui/src/components/wave_viewer.rs:36-49 | the state becomes the viewer with the simulation set |
| WaveViewers.WaveViewer.Right | oombak_tui/src/components/wave_viewer.rs:51-57 | the state scrolls right |
| WaveViewers.WaveViewer.Left | oombak_tui/src/components/wave_viewer.rs:59-65 | the state scrolls left |
| WaveViewers.WaveViewer.Down | oombak_tui/src/components/wave_viewer.rs:67-73 | the state scrolls down |
| WaveViewers.WaveViewer.Up | oombak_tui/src/components/wave_viewer.rs:75-80 | the state scrolls up |
| InstanceHierViewers.NewNodeSpec | oombak_tui/src/components/instance_hier_viewer.rs:282-332 | a node's path is its name under its parent's path, joined by a dot unless the parent path is empty; it starts collapsed with one child node per child instance and one unmarked leaf per signal, each leaf marked added exactly when its path is probed |
| InstanceHierViewers.RootPath | oombak_tui/src/components/instance_hier_viewer.rs:283-299 | the root's path is its instance name and its children's paths are that name, a dot and theirs |
| InstanceHierViewers.LeafItems | oombak_tui/src/components/instance_hier_viewer.rs:161-164 | the listed leaves of a node are its signals in order |
| InstanceHierViewers.Traverse | oombak_tui/src/components/instance_hier_viewer.rs:151-169 | the traversal appends the flattened hierarchy of the node to the items already listed |
| InstanceHierViewers.FlattenShape | oombak_tui/src/components/instance_hier_viewer.rs:151-169 | a node is listed first; a collapsed node alone; an expanded one followed by its signals in order, then its children |
| InstanceHierViewers.FlattenValid | oombak_tui/src/components/instance_hier_viewer.rs:151-169 | every listed item lies under the node and addresses an existing node or signal |
| InstanceHierViewers.ChildItemsValid | oombak_tui/src/components/instance_hier_viewer.rs:165-167 | every item listed for the children addresses an existing node or signal |
| InstanceHierViewers.RootItemsValid | oombak_tui/src/components/instance_hier_viewer.rs:142-149 | every item of the flattened hierarchy addresses an existing node or signal |
| InstanceHierViewers.SameShapeItems | oombak_tui/src/components/instance_hier_viewer.rs:211-235 | trees of the same shape have the same valid items |
| InstanceHierViewers.ToggleSpec | oombak_tui/src/components/instance_hier_viewer.rs:211-214 | toggling a node's expansion keeps the tree's shape, flips exactly that node's flag, and toggling twice gives back the tree |
| InstanceHierViewers.SetLeafSpec | oombak_tui/src/components/instance_hier_viewer.rs:215-235 | replacing a leaf keeps the tree's shape and changes only that leaf |
| InstanceHierViewers.MarkerStepSpec | oombak_tui/src/components/instance_hier_viewer.rs:217-234 | an unmarked probed signal is marked for removal and an unprobed one for addition, with its path added to that set; a marked one is unmarked with its path removed; when the markers and sets agree they still agree, and acting twice gives back the leaf and sets; a signal is never marked to add when probed nor to remove when not |
| InstanceHierViewers.SetLoadedDutSpec | oombak_tui/src/components/instance_hier_viewer.rs:75-84 | loading a design builds a collapsed tree rooted at its root instance, takes the probed points, selects the first row and keeps the marked sets; the list then shows the root alone |
| InstanceHierViewers.RenderSpec | oombak_tui/src/components/instance_hier_viewer.rs:88-93 | rendering lists the flattened tree, every item of which exists, so a selection within it can be acted on |
| InstanceHierViewers.PerformActionSpec | oombak_tui/src/components/instance_hier_viewer.rs:206-241 | Enter on an instance flips its expansion, and twice gives it back; on a signal it applies the marker step to that leaf and the marked sets, and twice gives them back when they agree; the list and selection stay |
| InstanceHierViewers.SetLeafRestores | oombak_tui/src/components/instance_hier_viewer.rs:215-235 | putting back the old leaf gives back the tree |
| InstanceHierViewers.ScrollSpec | oombak_tui/src/components/instance_hier_viewer.rs:266-279 | down and up move the selected row by one, stopping at the last and first rows and keeping it in the list; the list is unchanged |
| InstanceHierViewers.QuitSpec | oombak_tui/src/components/instance_hier_viewer.rs:106-123 | q clears the marked sets and releases the focus; every other key is handled, and an unbound key changes nothing |
| InstanceHierViewers.ListOf | oombak_tui/src/components/instance_hier_viewer.rs:251-255 | a set is listed with each element once |
| InstanceHierViewers.InstanceHierViewer.constructor | oombak_tui/src/components/instance_hier_viewer.rs:61-73 | a new viewer has no tree, no items, no selection and empty sets |
| InstanceHierViewers.InstanceHierViewer.LoadDut | oombak_tui/src/components/instance_hier_viewer.rs:75-84 | the state takes the loaded design |
| InstanceHierViewers.InstanceHierViewer.RenderList | oombak_tui/src/components/instance_hier_viewer.rs:88-93 | the items become the flattened tree |
| InstanceHierViewers.InstanceHierViewer.ActOnSelected | oombak_tui/src/components/instance_hier_viewer.rs:206-241 | the state is that of Enter on the selected item |
| InstanceHierViewers.InstanceHierViewer.ModificationRequest | oombak_tui/src/components/instance_hier_viewer.rs:251-259 | the request lists exactly the signals marked to add and to remove, each once |
| InstanceHierViewers.InstanceHierViewer.ClearMarkedSignals | oombak_tui/src/components/instance_hier_viewer.rs:261-264 | both marked sets are emptied |
| InstanceHierViewers.InstanceHierViewer.Down | oombak_tui/src/components/instance_hier_viewer.rs:266-272 | the selection moves down one row |
| InstanceHierViewers.InstanceHierViewer.Up | oombak_tui/src/components/instance_hier_viewer.rs:274-279 | the selection moves up one row |
| InstanceHierViewers.InstanceHierViewer.HandleKeyEvent | oombak_tui/src/components/instance_hier_viewer.rs:106-123 | the state and result are those of the key handling, and a modification request with the marked sets, taken before they are cleared, is made exactly on q |
| LegacyWaveforms.Fold | ombak-tui/src/widgets/waveform.rs:47-59 | the fold keeps one count per value, and has a previous value exactly when it has counted something |
| LegacyWaveforms.Zip | ombak-tui/src/widgets/waveform.rs:60 | the runs pair each value with its count, in order |
| LegacyWaveforms.FoldSpec | ombak-tui/src/widgets/waveform.rs:47-59 | the fold's values and counts expand back to the values folded, with neighbouring values different and the previous value the last one |
| LegacyWaveforms.StepSame | ombak-tui/src/widgets/waveform.rs:50-52 | a repeated value adds one to the last count |
| LegacyWaveforms.StepNew | ombak-tui/src/widgets/waveform.rs:53-57 | a new value starts a run of one |
| LegacyWaveforms.CompactVecSpec | ombak-tui/src/widgets/waveform.rs:46-61 | compaction gives runs of at least one, neighbouring runs with different values, that expand back to the values; no runs exactly for no values |
| LegacyWaveforms.Spaces | ombak-tui/src/widgets/waveform.rs:37 | padding of n spaces |
| LegacyWaveforms.FormatSpec | ombak-tui/src/widgets/waveform.rs:31-44 | a value's text is exactly as wide as its count's columns: centred in spaces, with the extra space on the right, when it fits; otherwise cut and ended with "...", or just dots when fewer than three columns |
| LegacyWaveforms.OpeningRow | ombak-tui/src/widgets/waveform.rs:63-77 | the opening adds height + 1 characters to each line |
| LegacyWaveforms.TailRow | ombak-tui/src/widgets/waveform.rs:79-94 | the tail adds height characters to each line, one more after the last run |
| LegacyWaveforms.BodyRow | ombak-tui/src/widgets/waveform.rs:96-110 | the body adds one character per character of the text to each line |
| LegacyWaveforms.ShapeSpec | ombak-tui/src/widgets/waveform.rs:63-110 | the opening draws a cross on the middle line and rising and falling edges away from it; the body writes the text on the middle line with a top bar above and a bottom bar below; the tail closes the edges, with a cross after the last run; lines past the shape get spaces |
| LegacyWaveforms.DrawOpening | ombak-tui/src/widgets/waveform.rs:63-77 | each line gets its row of the opening appended |
| LegacyWaveforms.DrawTail | ombak-tui/src/widgets/waveform.rs:79-94 | each line gets its row of the tail appended |
| LegacyWaveforms.DrawBody | ombak-tui/src/widgets/waveform.rs:96-110 | each line gets its row of the body appended |
| LegacyWaveforms.DrawLines | ombak-tui/src/widgets/waveform.rs:118-133 | render draws 2 * height + 1 lines, all of the width the runs take |
| LegacyWaveforms.DrawRun | ombak-tui/src/widgets/waveform.rs:127-133 | each line gets its opening row, then its body row, then its tail row appended |
| LegacyWaveforms.DrawnWidthSum | ombak-tui/src/widgets/waveform.rs:118-133 | the lines are as wide as the value texts plus 2 * height + 1 per run, plus one column after the last run |
| SlangDesign.NestedInstanceIsMember | oombak_rs/oombak_parser/src/instance_tree_builder.hpp:147-148 | every nested instance listed is an instance member of the body |
| SlangDesign.NestedInstancesComplete | oombak_rs/oombak_parser/src/instance_tree_builder.hpp:147-148 | every instance member of the body is listed among its nested instances |
| Interpreter.Interpret | oombak_tui/src/backend/interpreter.rs:16-30 | as InterpretOutcome proves: a blank line is no command and only it; quit and help go by the first word; an unknown first word is an error naming it; run, load and set need exactly their arguments, a run's duration and a set's value being what their parsers give, and a bad value is the parser's error (decimal text through the corrected parse_radix, see Findings) |
| BitvecStr.Format | oombak_tui/src/utils/bitvec_str.rs:20-27 | as FormatRoundTrip proves: the text in any radix, read back with that radix's prefix, is the value resized to the read-back width (decimal text through the corrected parse_radix, see Findings) |
| BitvecStr.DecimalString | oombak_tui/src/utils/bitvec_str.rs:96-110 | as DecimalStringValue and DecimalRoundTrip prove: the text is the unsigned value, or a minus sign and the magnitude of a negative two's complement value; a non-negative text parses back to the value (decimal text through the corrected parse_radix, see Findings) |
| LegacyWaveforms.CompactVec | ombak-tui/src/widgets/waveform.rs:46-61 | every run lasts at least one unit; with CompactVecSpec, the runs expand back to the values, neighbouring runs differ and no values give no runs |
| LegacyWaveforms.Format | ombak-tui/src/widgets/waveform.rs:31-44 | as FormatSpec proves: the label is exactly as wide as the run's cell; a text that fits is centred between spaces, a longer one is cut and ends in "..." |
| GenSignalNames.DotReplaced | oombak_gen/src/parser.rs:17-19 | as DotReplacedShape proves: no dot is left, a name without dots is unchanged and each dot adds four characters |
| KeyMaps.KeyIdString | oombak_tui/src/widgets/key_maps.rs:86-113 | as KeyIdStringSpec proves: a key shows as its own text exactly when it has no modifiers, otherwise as the modifiers joined by + and then - and the key |
| KeyMaps.KeyIdsToString | oombak_tui/src/widgets/key_maps.rs:164-176 | as KeyIdsToStringIsJoin proves: the keys show as their texts joined by ", ", a single key as itself and no keys as nothing |
| CommandLines.GetUtf8Index | oombak_tui/src/widgets/command_line.rs:139-141 | as GetUtf8IndexSpec proves: a character position has a byte index exactly when it is inside the text, and it is the UTF-8 length of the text before it, the position itself for ASCII text |
| WaveResults.Find | oombak_sim/src/message/response/results.rs:136-143 | as FindCovers proves: a time is found exactly when it is before the wave's end, and the run found covers it at the offset returned |
| WaveResults.At | oombak_sim/src/message/response/results.rs:128-134 | as AtIsExpand proves: the value at a time is the expanded wave's value there, and nothing past the end |
| WaveResults.EndTime | oombak_sim/src/message/response/results.rs:114-122 | as EndTimeIsLength proves: the end time is the expanded length minus one, and 0 for an empty wave |
| ScrollStates.NextWindow | oombak_tui/src/widgets/scroll_state.rs:35-41 | as NextSpec proves: the selection stays in view, the lengths are kept, and the position moves down by one unless already at the last item in view |

## Left out

- Drawing is not modelled. This covers ratatui widgets, list items and their text, the list widget's own selection, scrollbars, the pop-up layout and terminal buffers. Only the state that drawing reads is kept.
- The glyph plotting of the current front end's waveform widget (oombak_tui/src/widgets/waveform.rs) is not part of this model. The wave viewer drives its WaveformScrollState as the plain ScrollState, the state it wraps.
- Channel sends are left out: the render notifications, the requests the front end sends and the simulators' response channel. Where a send carries data, that data is modelled as a returned value, e.g. the probe modification request and the responses of `Serve`.
- Threads and shared ownership (Arc, RwLock, Mutex) are not modelled. The hierarchy viewer's shared nodes and leaves become a value tree addressed by child-index paths, and the list's items become those paths.
- The serve loop of oombak_local_sim/src/lib.rs (lib.rs:40-60) and its channel setup are left out as concurrency. Its handlers for run, load and probe modification are modelled in LocalSim.LocalSimulator. Unlike oombak_sim/src/local_simulator.rs it also answers SetSignal and ModifyProbedPoints, and it keeps the channel on Terminate.
- The Verilated model, the dynamic library and slang are parameters. The model does not check how they behave inside; it only assumes what the host oracle and the design input say.
- SimServer.RequestServer.Run, SimServer.RequestServer.Step, SimServer.RequestServer.ServeRun, SimServer.RequestServer.Serve, LocalSim.SimulationResult.Run, LocalSim.SimulationResult.Step, LocalSim.LocalSimulator.Run, SimLocalSimulator.LocalSimulator.ServeRun, SimLocalSimulator.LocalSimulator.Serve: a run requires the DUT clock to equal the result's time (`Synced`). A step that fails after the DUT has moved breaks this, and the source then keeps running from the result's time; the model does not run from that state. A load or a probe modification that rebuilds the design makes the two clocks agree again, and every other request keeps them as they are.
- SimServer.RequestServer.Run, SimServer.RequestServer.Step, SimServer.RequestServer.ServeRun, SimServer.RequestServer.Serve, LocalSim.SimulationResult.Run, LocalSim.SimulationResult.Step, LocalSim.LocalSimulator.Run, SimLocalSimulator.LocalSimulator.ServeRun, SimLocalSimulator.LocalSimulator.Serve: a run requires that the DUT's run moves its clock forward and never past the time asked (`Advances`); without it the corrected loop need not end.
- Generate blocks and instance arrays in the design are not modelled; only direct instance members are followed (SlangDesign lists nothing else).
- InstanceTreeBuilder: on an error the model leaves no tree, where the builder keeps a partly built tree (oombak_rs/oombak_parser/src/instance_tree_builder.hpp:44,81).
- ParserDriver.OombakParser.GetInstanceTree: after a builder error the source keeps that partial tree in its root slot (oombak_parser.cpp:76-78) without returning it, and frees it on the next call; the model empties the slot, so it does not capture the partial tree's contents.
- ProbeParser.StringFromPtr, LegacyParser.StringFromPtr: strings are `seq<char>`, so the UTF-8 check of `to_str()?` (oombak_rs/src/probe/parser.rs:227, oombak_rs/src/parser.rs:151) cannot fail in the model. The null-iff rows that depend on them (ProbeParser.SignalFromRaw, ProbeParser.CollectSignalsNull, ProbeParser.InstanceFromRawNull, ProbeParser.ChildrenFromRawNull, LegacyParser.SignalFromRaw) hold for UTF-8 names only; a name that is not valid UTF-8 makes the source fail with a UTF-8 error.
- SimServer.RequestServer.Step, LocalSim.SimulationResult.Step: ask the DUT for the time still missing to the target, where the source asks for the whole duration on every step (oombak_sim/src/sim.rs:214, oombak_sim/src/local_simulator.rs:88, oombak_local_sim/src/lib.rs:92). This is the corrected loop; the loop as written is in Findings.
- SimServer.RequestServer.Run, LocalSim.SimulationResult.Run, LocalSim.LocalSimulator.Run: the target time is an unbounded sum, so the u64 overflow of `simulation_time + duration` (oombak_sim/src/sim.rs:212, oombak_sim/src/local_simulator.rs:85) is not modelled.
- WaveResults.Wave.Slice: requires the start time to be at most the end time when both are within the wave; the source subtracts them as usize (oombak_sim/src/message/response/results.rs:76 and :80) and underflows otherwise.
- The builder header of the older parser library (oombak_parser/src) is not part of this model; the current builder stands in for it.
- Integer widths are modelled only where they change behaviour: the 32-bit DUT words, u64 durations, u128 decimals and usize::MAX in the list selection. Other u8, u16 and usize fields are unbounded `nat`.
- The crossterm text of named keys (such as F2 or Enter) is kept as a name. Key modifiers other than shift, control and alt are not modelled; the source panics on them.
- Panics are modelled as preconditions. Each one below names the member and the case the source does not handle.
- BitvecStr.DecimalString: requires a width of at most 128 bits, or 127 when signed; the source reaches `unimplemented!` past that.
- BitvecStr.ParseNonDecimal: requires at least two characters, as its only caller ensures.
- CommandLines.BackspaceLine: requires a character before the cursor; the source unwraps its offset.
- DropDowns.Selected: requires the selection to name an item; the source unwraps the lookup.
- Forms.Up, Forms.Down: require a consistent highlight; up from a button on a form without fields underflows in the source.
- WaveViewers.ScrollDown: requires a row when one is selected; the source computes the last row as the row count minus one.
- WaveViewers.HighlightedUnitTime: requires a zoom of at least 1; zoom 0 divides by zero.
- InstanceHierViewers.ScrollDown and InstanceHierViewers.PerformAction: require the list to be non-empty and the selection to name an item; the source indexes and subtracts without checking. InstanceHierViewers.CanAct also requires the listed item to exist in the current tree, which excludes the stale list between set_loaded_dut and the next render, where the source acts on nodes of the old tree.
- Selectors.HandleKey: requires the selection to name an entry on Enter; the source indexes the entries with it.
- ProbeParser.NodeFromResult: requires a well-tagged result from the library; the source reaches `unreachable!` otherwise.
- TuiBindings.SetResult and TuiBindings.GetResult: require a name without a NUL character; the source unwraps the C string conversion.
- LegacyDutShim.SetFromVec: requires enough words for the width; the C++ reads past the vector otherwise.
- SimLocalSimulator.LocalSimulator.Serve: requires a request other than SetSignal and ModifyProbedPoints; those are `todo!` in the source.
- WaveViewers.SetSimulation: keeps the old selection when the new simulation has no waves, as the source does (SetSimulationKeepsStaleSelection). The two ways the source counts cells per unit time, 4 + zoom and 4 * zoom, are kept as written.
- InstanceHierViewers.HandleKey: quitting clears the marked sets but not the markers on the leaves, as the source does.
- LocalSim.LocalSimulator.LoadDut: a load that fails after the library fails to open leaves the reload flag set, as in the source.

## Findings

| source | as written | input that shows it | evidently intended | confidence | as-written member | corrected member |
|---|---|---|---|---|---|---|
| oombak_tui/src/utils/bitvec_str.rs:248-258 | a decimal value keeps only `size_of::<u128>()` = 16 bits | "65536" reads as 16 zero bits | all 128 bits of the parsed number | high, not executed | BitvecStr.AsWrittenDropsHighBits | BitvecStr.ParseRadixValue |
| ombak-tui/src/utils/bitvec_str.rs:48-57 | a signed value is extended with its lowest bit | [1,0] (value 1) at width 4 signed shows 1101, i.e. -3 | extension with the top bit, as the current front end does | high, not executed | LegacyBitvecStr.FillFromLowestBit | BitvecStr.ResizeKeepsValue |
| oombak_tui/src/widgets/scroll_state.rs:64-68 | is_at_end computes `viewport_length - 1` when the viewport is empty | new(1), next, next with viewport 0 underflows | the end test of is_at_viewport_end, which checks for an empty viewport first | medium, not executed | ScrollStates.EmptyViewportOverflow | ScrollStates.NextSpec |
| oombak_tui/src/widgets/command_line.rs:126-131 | move right is bounded by the text's length in bytes | "é" with the cursor at 1 moves to 2, and backspace then unwraps None | a bound in characters | high, not executed | CommandLines.MoveRightPastMultiByte | CommandLines.CursorStaysInText |
| oombak_local_sim/src/lib.rs:84-100 | each step of the run loop asks the DUT for the whole duration again, and the loop ends only when the time equals the target | a DUT with one pending event at time 5, run(10) from 0: the times reached are 0, 5, 15, 25, … and never 10, so the loop does not end | each step asks for the time still missing, so the run ends exactly at the current time plus the duration | medium, not executed | LocalSim.RunOvershoots | LocalSim.SimulationResult.Run |
| oombak_sim/src/sim.rs:211-219 | the same loop as oombak_local_sim/src/lib.rs:84-100: each step asks for the whole duration, and it ends only when the time equals the target | the same DUT and run(10) from 0; the loop and the host step are the same, so LocalSim.RunOvershoots is this loop's counterexample too | each step asks for the time still missing | medium, not executed | LocalSim.RunOvershoots | SimServer.RequestServer.Run |
| oombak_sim/src/local_simulator.rs:79-95 | the same loop as oombak_local_sim/src/lib.rs:84-100: each step asks for the whole duration, and it ends only when the time equals the target | the same DUT and run(10) from 0; the loop and the host step are the same, so LocalSim.RunOvershoots is this loop's counterexample too | each step asks for the time still missing | medium, not executed | LocalSim.RunOvershoots | SimLocalSimulator.LocalSimulator.ServeRun |
