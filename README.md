# mypyc core, modelled in Dafny

This project models the core of mypyc, the compiler from type-annotated Python
to C extension modules. It covers four parts of the compiler:

- **The intermediate representation** (`mypyc/ops.py`). Runtime types: primitives,
  tuples, instances, optionals, unions and void. It also covers register
  environments, the op variants, basic blocks, function, class and module IR,
  and the textual rendering of blocks.
- **The function emitter** (`mypyc/emitfunc.py`). It turns one `FuncIR` into C:
  the header, the local declarations, and one rendering per op
  (`FunctionEmitterVisitor`).
- **The module generator** (`mypyc/emitmodule.py`). It declares the globals of a
  build and sorts the header declarations topologically. It writes each
  module's method table, module struct and init function, and assembles the
  final C text.
- **The structural type equality** (`mypyc/sametype.py`). This covers
  `is_same_type`, the union matching loop and the two signature comparisons.

Python objects whose fields change become Dafny classes:
- `Environment`;
- `Emitter` / `EmitterContext`;
- `ModuleGenerator`;
- the toposort state `DeclarationSort`.

Their methods are proved against functions over their state. Pure computations
become functions, and lemmas state what the source promises of them.

The modules follow the program's structure:

| Module | Contents |
|---|---|
| `RTypes` | runtime types |
| `Ops` | ops |
| `Environment` | register environment and `format`/`to_lines` |
| `IR` | blocks, functions, classes, modules, `format_blocks` |
| `Emit` | emitter buffers and emitter helpers |
| `EmitFunc` | function emitter |
| `EmitModule` | module generator |
| `CString` | C string literals |
| `SameType` | type equality |

`Strings` and `Wrappers` hold string, number and `Result`/`Option` utilities.

Where the files disagree with each other, the model resolves each case as
follows:
- `ModuleIR` declares `unicode_literals` as a string-to-string dictionary, but
  `emitmodule.py` reads `module.literals` as a mapping from int, float or str
  literals to C symbols. The model uses the latter, as a sequence of
  `(literal, symbol)` pairs.
- `RUnion`, `RVoid` and `FuncSignature` are used by `sametype.py` but are not
  defined in `ops.py`. They are defined minimally in `RTypes` and `SameType`.
- `is_same_method_signature`, by its name, compares method signatures, and it
  skips the receiver. As written, it still compares argument names, and so does
  the model.
- `GetAttr`/`SetAttr` carry a `class_type` in `ops.py`, but `visit_get_attr` and
  `visit_set_attr` read `op.rtype` (mypyc/emitfunc.py:199, 210). The model reads
  the class layout from `class_type`.
- `visit_load_error_value` reads `op.rtype` (mypyc/emitfunc.py:187-194), and
  `visit_tuple_get` reads `op.target_type` (mypyc/emitfunc.py:233). The
  constructors set neither: they store the type in `_type` (mypyc/ops.py:957,
  1075). The model reads the stored type. As written, these reads fail like
  `visit_cast`'s `op.typ` (see Findings), but the model keeps no as-written
  version of them.
- `generate_native_function` calls `fn.env.num_regs()` (mypyc/emitfunc.py:32),
  which `Environment` does not define. The model reads it as the number of
  registers in the environment.
- `generate_function_declaration` calls `native_function_header(fn,
  emitter.names)` (mypyc/emitmodule.py:58), but `native_function_header` takes one
  argument (mypyc/emitfunc.py:12). The model follows the definition and uses
  the one-argument header.
- `generate_module_def` calls `fn.cname(emitter.names)` (mypyc/emitmodule.py:133),
  but `cname` is a `str` attribute of `FuncIR` (mypyc/ops.py:1207), so the call
  raises `TypeError` for any module with a function. The model follows the
  definition and uses the attribute's value; the call as written is in Findings.

## Model

| member | source | states |
|---|---|---|
| RTypes.CModuleName | mypyc/ops.py:45-46 | the C name is `module_` followed by the module name with every `.` replaced by `__dot__`: no dot is left, the length grows by 6 per dot, and a dot-free name is kept unchanged |
| RTypes.ShortName | mypyc/ops.py:49-52 | a name starting with `builtins.` loses exactly that prefix; any other name is returned unchanged |
| RTypes.ShortNameStripsPrefix | mypyc/ops.py:49-52 | stripping is the inverse of prefixing `builtins.` |
| RTypes.NewRPrimitive | mypyc/ops.py:104-120 | construction succeeds iff the C type is `CPyTagged`, `PyObject *` or `char`; the undefined value is `CPY_INT_TAG`, `NULL` or `2` respectively, and the type keeps the given name and flags |
| RTypes.CtypeSpaced | mypyc/ops.py:72-77 | the spaced C type is the C type when it ends in `*`, and the C type plus one space otherwise |
| RTypes.CtypeSpacedExamples | mypyc/ops.py:130-182 | `CPyTagged `, `char ` and `PyObject *` for the int, bool and object primitives |
| RTypes.CUndefinedValue | mypyc/ops.py:79-80 | an undefined value exists except for tuples and void; primitives take theirs from the C type, and instances, optionals and unions use `NULL` |
| RTypes.TupleSentinelFails | mypyc/ops.py:198-204 | a tuple never has a single-expression undefined value, while each non-tuple element has one |
| RTypes.TupleRefcountedIff | mypyc/ops.py:189-193 | a tuple is refcounted iff some element type is refcounted |
| RTypes.TupleCDeclaration | mypyc/ops.py:232-242 | the struct declaration is the `struct NAME {` line, field `f{i}` for element `i` in order, `};` and a blank line |
| RTypes.GetterIndex | mypyc/ops.py:263-267 | the getter slot is twice the position of the first attribute with that name; an unknown name fails |
| RTypes.SetterIndex | mypyc/ops.py:269-270 | the setter slot is the getter slot plus one, and is odd |
| RTypes.MethodIndex | mypyc/ops.py:272-277 | the method slot is twice the attribute count plus the position of the first method with that name; an unknown name fails |
| RTypes.AttrType | mypyc/ops.py:279-283 | the type of the attribute found at the getter slot, failing exactly when the getter does |
| RTypes.SlotLayoutExample | mypyc/ops.py:263-277 | with attributes `a`, `b` and methods `f`, `g`: slots 0,1 / 2,3 for the attributes and 4, 5 for the methods |
| Ops.Dest | mypyc/ops.py:590-595 | a strict register op always has a destination; a call or primitive op has its optional result register |
| Ops.TypeOf | mypyc/ops.py:590-595 | calls and primitive ops may have no type; ops without a register type fail; `Box` is an object and `SetAttr` a bool; `GetAttr` has a type iff the attribute exists |
| Ops.CanRaise | mypyc/ops.py:570-1163 | only register ops may raise. `PyGetAttr` always may. The calls, `GetAttr`, `Cast` and `Unbox` (magic-value errors) and `SetAttr` (a false result) may. A primitive may iff its description's error kind is not "never". Assignments, loads, reference counting, tuple construction and reads, and boxing never do |
| Ops.Sources | mypyc/ops.py:497-1157 | for every variant, the registers it reads in the source's order. A branch reads its left register, and its right one unless that is invalid. Calls read their arguments, then the callee or the receiver (and the method). Reference counting reads its register, and single-operand ops their operand. `SetAttr` reads the object, then the value. A tuple reads its items, and the loads read nothing |
| Ops.UniqueSources | mypyc/ops.py:604-609 | the same registers as `sources()`, with no duplicates, in first-occurrence order |
| Ops.Invert | mypyc/ops.py:526-528 | the true and false labels swap and `negated` flips; everything else is kept |
| Ops.InvertTwice | mypyc/ops.py:526-528 | inverting twice restores the branch |
| Ops.InvertKeepsTarget | mypyc/ops.py:526-528 | an inverted branch jumps to the same label for the same condition value |
| Environment.FormatOne | mypyc/ops.py:360-385 | only `%r`, `%d`, `%l`, `%s` are known directives; `%r` succeeds iff the register is named and yields its name; `%l` yields `L` and at least one more character |
| Environment.FormatNumberReadsBack | mypyc/ops.py:360-385 | `%d` and `%l` succeed iff the argument is a number. `%d` yields its decimal text and `%l` yields `L` followed by it, and that text reads back as the number |
| Environment.FormatLiteral | mypyc/ops.py:360-385 | a format with no `%` is returned unchanged |
| Environment.FormatMissingArgument | mypyc/ops.py:360-385 | a directive without its argument, or a trailing `%`, fails |
| Environment.FormatDirectiveThen | mypyc/ops.py:360-385 | a directive renders its argument, then formatting continues with the rest; a failing directive fails the whole format |
| Environment.GroupsTile | mypyc/ops.py:387-402 | the groups of `to_lines` cover the registers in order with no gap, each a maximal run of equal types |
| Environment.ScanRun | mypyc/ops.py:390-397 | the inner loop stops at the end of the run of registers whose type equals the first one, collecting their names |
| Environment.GroupedLines | mypyc/ops.py:387-402 | the outer loop yields one `names :: type` line per run |
| Environment.Environment.constructor | mypyc/ops.py:321-326 | a new environment is empty, with temp index 0 |
| Environment.Environment.Add | mypyc/ops.py:331-334 | the register's index is the former register count and its name and type are recorded; a new register is appended and keeps the indices dense |
| Environment.Environment.NextRegisterFresh | mypyc/ops.py:336-352 | the next numbered register is not yet named |
| Environment.Environment.AddLocal | mypyc/ops.py:336-342 | the new register is numbered by the register count, bound to the variable so that `lookup` finds it, and no other binding changes |
| Environment.Environment.Lookup | mypyc/ops.py:344-345 | lookup succeeds iff the variable is bound |
| Environment.Environment.AddTemp | mypyc/ops.py:347-352 | the new register is named `r` followed by the temp index, and the temp index grows by one |
| Environment.Environment.AddOp | mypyc/ops.py:354-358 | nothing changes when the op has no type; otherwise its destination is added as a temporary of that type |
| Environment.Environment.Format | mypyc/ops.py:360-385 | the method computes the format specification over the current names |
| Environment.ScanFormat | mypyc/ops.py:364-385 | the scanning loop over `%` positions yields the format specification, including its three error exits (a trailing `%`, no argument left, a failing directive) |
| Environment.FormatScanStep | mypyc/ops.py:366-385 | skipping to the next `%` copies the literal text; a trailing `%` fails with `string index out of range`, a directive without argument with `pop from empty list`, and a directive otherwise renders its argument or fails with that directive's message |
| Environment.Environment.ToLines | mypyc/ops.py:387-402 | the lines are the grouped `names :: type` lines of the registers in insertion order |
| IR.CName | mypyc/ops.py:1207 | a method's C name is its class name, `___` and its name; a function outside a class keeps its name |
| IR.CNameCollision | mypyc/ops.py:1207 | a function `b___c` and method `c` of class `b` receive the same C name |
| IR.GetMethod | mypyc/ops.py:1235-1237 | a method of that name from the class's methods, or none iff there is none |
| IR.GetMethodMatchesSlot | mypyc/ops.py:1235-1237 | `get_method` finds a method iff the method slot exists, and it finds the method stored at that slot |
| IR.NewModuleIR | mypyc/ops.py:1252-1258 | the imports keep their order, and `builtins` is put at the front iff it was absent |
| IR.NewModuleIRIdempotent | mypyc/ops.py:1252-1258 | building a module IR from an existing one changes nothing |
| IR.RegTexts | mypyc/ops.py:360-385 | every register's name, in order, failing iff some register is unnamed |
| IR.GotoText | mypyc/ops.py:443-444 | a goto renders as `goto L<label>` |
| IR.LoadIntText | mypyc/ops.py:942-943 | an integer load renders as `dest = value` |
| IR.BranchTextFromCondition | mypyc/ops.py:503-524 | a branch renders as `if COND goto Lt` with the optional traceback, then `else goto Lf`, then the type suffix |
| IR.BranchIntText | mypyc/ops.py:503-524 | an integer comparison branch renders its condition with the comparison symbol and ends in ` :: int` |
| IR.BlockTextShape | mypyc/ops.py:1336-1354 | a block renders as its label line, one line per op (hiding a final goto to the next block), and a missing-exit marker when the block does not end in an exit op |
| IR.FormatOps | mypyc/ops.py:1348-1350 | the loop renders each op, indented |
| IR.FormatBlock | mypyc/ops.py:1339-1353 | the loop body renders one block as its text |
| IR.FormatBlocks | mypyc/ops.py:1336-1354 | the lines of all blocks in order, failing exactly when a block fails |
| EmitFunc.ParameterListVoid | mypyc/emitfunc.py:12-21 | the parameter list is `void` iff there are no arguments, and otherwise the argument declarations joined by `, ` |
| EmitFunc.NegationPrefixesBang | mypyc/emitfunc.py:77-103 | for a bool test or an integer comparison, negation only prepends `!` |
| EmitFunc.NegationFlipsComparator | mypyc/emitfunc.py:77-103 | for `IS_NONE` and `IS_ERROR`, negation replaces `==` by `!=` and changes nothing else |
| EmitFunc.TupleErrorCheck | mypyc/emitfunc.py:89-94 | an error test on a tuple compares field `.f0` with the first element's error value, and fails when there is none |
| EmitFunc.BranchLinesShape | mypyc/emitfunc.py:106-119 | with a traceback entry the condition is wrapped in `unlikely(...)` and a traceback line comes first; the lines end with `goto true`, `} else`, `goto false`, whatever `negated` is |
| EmitFunc.NewListLayout | mypyc/emitfunc.py:155-163 | `PyList_New(n)`, then one `Py_INCREF` per argument, then the guarded `PyList_SET_ITEM(dest, i, arg_i)` lines, in argument order |
| EmitFunc.UndefinedValues | mypyc/emitfunc.py:186-194 | the element undefined values, in order, failing iff one is missing |
| EmitFunc.CastCodeAsWritten | mypyc/emitfunc.py:280-281 | the cast rendering as written always fails, because it reads a missing field |
| EmitFunc.CastCode | mypyc/emitfunc.py:280-281 | the cast rendering hands source, destination and target type to the cast helper |
| EmitFunc.CastDiscrepancy | mypyc/emitfunc.py:280-281 | the as-written cast fails while the op rendering uses the corrected cast |
| EmitFunc.LoadIntTagged | mypyc/emitfunc.py:182-184 | an integer load writes one line `dest = N;` where `N` reads back as twice the value |
| EmitFunc.PyCallNullTerminated | mypyc/emitfunc.py:243-253 | a Python call is one `PyObject_CallFunctionObjArgs` line whose arguments are followed by `NULL` |
| EmitFunc.PyMethodCallNullTerminated | mypyc/emitfunc.py:255-267 | a Python method call is one `PyObject_CallMethodObjArgs` line on receiver and method name, with arguments followed by `NULL` |
| EmitFunc.OpCodeIgnoresTemp | mypyc/emitfunc.py:61-62 | only an error-value load uses a fresh temporary name |
| EmitFunc.LocalDeclarationsExactly | mypyc/emitfunc.py:32-36 | exactly the registers with index in `[lo, hi)` are declared, in order |
| EmitFunc.FunctionEmitterVisitor.Visit | mypyc/emitfunc.py:64-284 | each op's lines are appended to the body, failing iff its rendering fails, and the temp counter advances only for ops that take a temporary |
| EmitFunc.FunctionEmitterVisitor.VisitLoadErrorValue | mypyc/emitfunc.py:186-194 | a tuple's error value fills a fresh temporary field by field; other types assign their error value |
| EmitFunc.FunctionEmitterVisitor.VisitPrimitiveOp | mypyc/emitfunc.py:129-175 | the lines of the primitive's rendering are appended |
| EmitFunc.FunctionEmitterVisitor.EmitNewList | mypyc/emitfunc.py:155-163 | the new-list lines are appended |
| EmitFunc.EmitOps | mypyc/emitfunc.py:40-41 | the loop appends the code of every op in order and threads the temp counter |
| EmitFunc.EmitBlocks | mypyc/emitfunc.py:38-41 | the loop appends each block's label and op code in order |
| EmitFunc.EmitLocalDeclarations | mypyc/emitfunc.py:32-36 | the loop appends one declaration per register from the first non-argument register on |
| EmitFunc.GenerateNativeFunction | mypyc/emitfunc.py:24-46 | the header and local declarations precede the body and the closing brace; nothing is written when an op cannot be rendered |
| Emit.FlatMapAppend | mypyc/emitmodule.py:86-99 | the lines written for a concatenation are the lines of each part in turn |
| Emit.TextAppend | mypyc/emitmodule.py:122 | joining the fragments of two buffers is joining each in turn |
| Emit.MapResultOkIff | mypyc/emitmodule.py:104-105 | a sequence of fallible emissions succeeds iff each does |
| Emit.Emitter.EmitLines | mypyc/emitfunc.py:300-301 | the lines are appended in order |
| Emit.Emitter.EmitEachResult | mypyc/emitmodule.py:104-105 | the loop appends each element's lines; it fails iff some element is refused, and then with the failure of an element all of whose predecessors succeed |
| EmitModule.NewMarkedDeclaration | mypyc/emitmodule.py:21-25 | the declaration is kept and the mark starts cleared, whatever is passed |
| EmitModule.DeclareGlobalIn | mypyc/emitmodule.py:234-240 | the first declaration of a name appends it with no dependencies and a single line; a known name changes nothing |
| EmitModule.DeclareGlobalIdempotent | mypyc/emitmodule.py:234-240 | declaring the same name twice equals declaring it once |
| EmitModule.IndependentKeepsOrder | mypyc/emitmodule.py:204-232 | with no dependencies the sorted order is the insertion order |
| EmitModule.SortFinished | mypyc/emitmodule.py:214-232 | once every root is visited, each declaration appears once, after its dependencies, with roots in insertion order |
| EmitModule.SortComplete | mypyc/emitmodule.py:228-230 | the names visited from all roots are exactly the declared names |
| EmitModule.ArrangedComplete | mypyc/emitmodule.py:218-227 | a complete arrangement implies no dependency is undeclared |
| EmitModule.DeclarationSort.Visit | mypyc/emitmodule.py:218-227 | a visit appends exactly the names reachable from the visited one, after their dependencies, extending the order; it fails only on an undeclared dependency |
| EmitModule.DeclarationSort.VisitDependencies | mypyc/emitmodule.py:222-226 | every dependency is visited before the declaration is appended |
| EmitModule.ModuleGenerator.ToposortDeclarations | mypyc/emitmodule.py:204-232 | the sort succeeds iff every dependency is declared, and then returns each declaration once, after its dependencies, with roots in insertion order |
| EmitModule.MethodTableLayout | mypyc/emitmodule.py:126-137 | with the corrected `cname` (see Findings), the method table has one entry per function, in order, ending with `{NULL, NULL, 0, NULL}` |
| EmitModule.MethodTableAsWritten | mypyc/emitmodule.py:126-137 | as written, the table succeeds iff the module has no function; otherwise it fails with `'str' object is not callable` |
| EmitModule.ModuleDefAsWrittenFails | mypyc/emitmodule.py:124-202 | as written, a module with a function fails at its table even when the corrected definition succeeds; without functions both agree |
| EmitModule.InitDeclarationPublicIff | mypyc/emitmodule.py:155-159 | the init function is the public `PyMODINIT_FUNC` entry iff one module is compiled, and its name ends in `PyInit_<module>(void)` |
| EmitModule.ImportsInitLayout | mypyc/emitmodule.py:255-259 | each import contributes its three lines, in list order |
| EmitModule.LiteralLinesOk | mypyc/emitmodule.py:174-193 | int, float and str literals are emitted; any other kind fails, naming its type in the text of the failed assertion |
| EmitModule.LiteralsLinesOkIff | mypyc/emitmodule.py:174-193 | the literal section succeeds iff no literal is of another kind |
| EmitModule.IntLiteralReadsBack | mypyc/emitmodule.py:176-180 | an int literal is one `PyLong_FromString` line whose digits read back as the value |
| EmitModule.StrLiteralReadsBack | mypyc/emitmodule.py:184-190 | a str literal is a `PyUnicode_FromStringAndSize` line followed by a null check. Its length is the UTF-8 byte count. Its C literal is the corrected encoding (see Findings), which reads back as the UTF-8 bytes |
| EmitModule.ModuleDefOkIff | mypyc/emitmodule.py:124-202 | with the corrected `cname` (see Findings), a module definition succeeds iff all literals are of a supported kind |
| EmitModule.ModuleDefLayout | mypyc/emitmodule.py:124-202 | the definition starts with the method table, then the struct, then the init function, which returns the module |
| EmitModule.InitFunctionEnds | mypyc/emitmodule.py:155-202 | the init function starts with its declaration and ends with `return m;` and `}` |
| EmitModule.DeclareAllListed | mypyc/emitmodule.py:234-253 | declaring globals extends the order and only adds names, all without dependencies |
| EmitModule.DeclareAllNew | mypyc/emitmodule.py:234-240 | a newly declared name holds the line of its first declaration |
| EmitModule.GlobalDeclsIn | mypyc/emitmodule.py:82-91 | the globals are `_globals`, the imports of every module and the literal symbols of every module |
| EmitModule.GlobalsDeclared | mypyc/emitmodule.py:82-91 | `_globals` comes first, every declared name is one of the globals, and each holds the static line of its first declaration |
| EmitModule.ModuleGenerator.constructor | mypyc/emitmodule.py:71-77 | a new generator keeps its modules and paths and has an empty context |
| EmitModule.ModuleGenerator.DeclareGlobal | mypyc/emitmodule.py:234-240 | the context changes as `DeclareGlobalIn` says |
| EmitModule.ModuleGenerator.DeclareInternalGlobals | mypyc/emitmodule.py:242-243 | `_globals` is declared |
| EmitModule.ModuleGenerator.DeclareImport | mypyc/emitmodule.py:245-246 | the import's module object is declared |
| EmitModule.ModuleGenerator.DeclareImports | mypyc/emitmodule.py:248-250 | each import is declared, in order |
| EmitModule.ModuleGenerator.DeclareStaticPyObject | mypyc/emitmodule.py:252-253 | the symbol is declared as a `PyObject *` |
| EmitModule.ModuleGenerator.DeclareGlobals | mypyc/emitmodule.py:82-91 | the context holds exactly the globals of the build |
| EmitModule.ModuleGenerator.GenerateModuleDef | mypyc/emitmodule.py:124-202 | the lines of the corrected module definition (see Findings) are appended, failing iff it fails |
| EmitModule.ModuleGenerator.EmitInitFunction | mypyc/emitmodule.py:155-202 | the init function is appended, failing iff a literal is unsupported |
| EmitModule.ModuleGenerator.GenerateImportsInitSection | mypyc/emitmodule.py:255-259 | the import lines are appended |
| EmitModule.ModuleGenerator.GenerateModuleDefs | mypyc/emitmodule.py:104-105 | every module's definition is appended in order |
| EmitModule.ModuleGenerator.GenerateFunctionSection | mypyc/emitmodule.py:108-112 | a blank line, the native function, a blank line and the wrapper are appended; a module without a source path fails |
| EmitModule.ModuleGenerator.GenerateFunctions | mypyc/emitmodule.py:107-112 | the sections of every module's functions are appended in order |
| EmitModule.ModuleGenerator.EmitHeader | mypyc/emitmodule.py:114-120 | the includes, then the declaration bodies in sorted order |
| EmitModule.ModuleGenerator.GenerateCForModules | mypyc/emitmodule.py:79-122 | the text is the C text of the build, failing exactly when it fails |
| EmitModule.ModuleGenerator.EmitMain | mypyc/emitmodule.py:80-112 | the main buffer holds the prototypes, the classes, a blank line, the module definitions and the function sections |
| EmitModule.CForModulesParts | mypyc/emitmodule.py:79-122 | the build succeeds iff the module definitions and function sections do, and is the header followed by the body |
| EmitModule.CForModulesHeader | mypyc/emitmodule.py:114-122 | the text starts with the includes and then one line per global, in declaration order |
| EmitModule.CForModulesOk | mypyc/emitmodule.py:79-122 | a successful build has only supported literals and a source path for every module with functions |
| CString.EncodeAsCStringAsWritten | mypyc/emitmodule.py:62-67 | the literal as written: the repr of the UTF-8 bytes between double quotes, with the byte count |
| CString.EncodeAsWrittenReadsPlain | mypyc/emitmodule.py:62-67 | when every character is printable ASCII, a tab, a newline or a carriage return, the literal as written is quoted and reads back as the UTF-8 bytes. It then stands for the same bytes as the corrected literal |
| CString.EncodeAsWrittenMisreads | mypyc/emitmodule.py:62-67 | for `éa` the as-written literal `"\xc3\xa9a"` does not read back as its bytes |
| CString.EncodeAsCString | mypyc/emitmodule.py:62-67 | the corrected literal's length is the UTF-8 length |
| CString.EscapeBytesRoundTrip | mypyc/emitmodule.py:62-67 | the corrected escapes read back as exactly the bytes |
| CString.EncodeAsCStringReadsBack | mypyc/emitmodule.py:62-67 | the corrected literal is quoted, reads back as the UTF-8 bytes, and its count is their number |
| Strings.ParseIntToString | mypyc/emitmodule.py:176-180 | decimal text reads back as the integer |
| SameType.VisitRUnion | mypyc/sametype.py:38-49 | the loop over the left items, deleting the first matching right item, computes union equality |
| SameType.NamedVariants | mypyc/sametype.py:31-32 | primitives or instances are the same iff their names are equal; void is the same only as void |
| SameType.DifferentVariants | mypyc/sametype.py:31-60 | types of different variants are never the same |
| SameType.TuplesAndOptionals | mypyc/sametype.py:34-36 | tuples are the same iff they have equal length and are pairwise the same; optionals iff their value types are |
| SameType.AllSamePairwise | mypyc/sametype.py:54-57 | the zip check holds iff every position is the same |
| SameType.SameIffShape | mypyc/sametype.py:9-60 | two types are the same iff their canonical shapes, with union members as multisets, are equal |
| SameType.UnionMatchIff | mypyc/sametype.py:38-49 | the greedy matching succeeds iff the item shapes are equal as multisets |
| SameType.SameTypeReflexive | mypyc/sametype.py:9-60 | every type is the same as itself |
| SameType.SameTypeSymmetric | mypyc/sametype.py:9-60 | sameness does not depend on argument order |
| SameType.SameTypeTransitive | mypyc/sametype.py:9-60 | sameness is transitive |
| SameType.UnionOrderIrrelevant | mypyc/sametype.py:38-49 | unions whose items are permutations of each other are the same |
| SameType.SameSignatureIff | mypyc/sametype.py:13-17 | signatures are the same iff they have equal arity and the same return type, and every argument pair has the same type and name |
| SameType.SameMethodSignatureIff | mypyc/sametype.py:20-24 | the same check with the first argument pair skipped, but the arity still compared over all arguments |
| SameType.SignatureFacts | mypyc/sametype.py:13-24 | the same signature implies the same method signature; both are reflexive and symmetric |

## Left out

- `compile_modules_to_c` (mypyc/emitmodule.py:28-53). It drives the mypy build, IR generation and the refcount and exception passes, and reads files. None of that is modelled.
- The helpers of `mypyc/emit.py`, `mypyc/emitclass.py`, `mypyc/emitwrapper.py` and `mypyc/common.py` are parameters (the `Helpers` and `ModuleHelpers` records of uninterpreted functions). They cover:
  - label and register naming;
  - temporary names;
  - reference counting, boxing, unboxing and cast code;
  - private module names;
  - the wrapper prefix;
  - wrapper headers and functions;
  - class code.

  Those files are not part of this model.
- `declare_tuple_struct` is not modelled. Its effect of adding tuple struct declarations, with dependencies, to the header is therefore left out. As a consequence the header of the model holds only the globals, which have no dependencies.
- EmitModule.ModuleGenerator.ToposortDeclarations: requires a ranking of the declarations, that is, acyclic dependencies. The source recurses without end on a cycle.
- EmitModule.ModuleGenerator.GenerateCForModules: requires a context without declarations, as a freshly constructed generator has.
- Indentation of emitted lines (`indent`/`dedent`) is left out. Lines are compared without leading spaces.
- The `EmitterContext` name table for temporaries is left out. Temporary names come from a counter through the `tempName` helper.
- Failure messages of assertion failures and `KeyError`s are modelled as `Fail` results. Their text is not the Python message. The exception is the literal-kind failure: its text is `str` of the two-string tuple the assertion carries, with `type(literal)` written `<class '…'>`.
- `%s` of an op object (Python's `str` of the object) is not modelled; the model fails. No `to_str` in `ops.py` passes a register to `%s`.
- `bool` literals are not modelled. Python's `bool` is an `int`, so the source writes `PyLong_FromString("True", NULL, 10)` for `True`; in the model `IntLiteral` writes digits and `OtherLiteral` stands only for values that are not `int`, `float` or `str`.
- `RTuple.unique_id` and `struct_name` hash Python objects, so the tuple struct name is a structural key instead.
- Float literals are kept as their text. Float formatting is not modelled.
- `PrimitiveOp.to_str` through `str.format` and the `OpDescription.emit` callbacks are a formatter parameter and a kind tag. The callbacks are registered by modules that are not part of this model. Likewise `visit_primitive_op2` and `PrimitiveOp2` are not modelled; that op variant is not defined in `ops.py`.
- `format_func` (mypyc/ops.py:1357-1365), the import side effects at the end of `ops.py`, the visitor double dispatch (replaced by `match`) and debugging `__repr__` strings are not modelled.
- The mypy `Var` of `add_local` is an opaque identifier with a name.
- Ops.Invert: the source flips the fields of the branch object in place. Ops are values in the model, so the inverted branch is a new value and aliasing of a shared op is not captured.
- EmitModule.StrLiteralReadsBack, EmitModule.StrLiteralLines: the generator writes the corrected encoding `CString.EncodeAsCString` in place of `encode_as_c_string`'s bytes repr (see Findings). So its C text differs from the source's even where the source's text reads correctly: for `a"b` it writes `\042` where the source writes `\"`, and likewise for `?`, tab and backslash. CString.EncodeAsWrittenReadsPlain proves that such strings read back the same either way.
- CString.Utf8Bytes: `s.encode('utf-8')` raises `UnicodeEncodeError` on a str holding a lone surrogate, such as `"\ud800"`. A Dafny `char` is a Unicode scalar value and cannot hold a surrogate, so that error path is not modelled.
- EmitModule.MethodTableLayout: states the table with the corrected `cname`, the attribute's value. As written, the source calls the `str` and raises `TypeError` at the first entry (see Findings, EmitModule.MethodTableAsWritten).
- EmitModule.ModuleDefOkIff: holds for the corrected `cname`. As written, every module with a function also fails, with `TypeError`; EmitModule.ModuleDefAsWrittenFails states that (see Findings).
- EmitModule.ModuleGenerator.GenerateModuleDef: appends the corrected definition. As written, the source raises `TypeError` for any module with a function (see Findings).
- C lexing details beyond escapes (trigraphs, line splicing) are not modelled in `CLiteralBytes`.

## Findings

| source | as written | input that shows it | evidently intended | confidence | as-written member | corrected member |
|---|---|---|---|---|---|---|
| mypyc/emitfunc.py:280-281 | `visit_cast` passes `op.typ` to `emit_cast`, and a `Cast` op has no `typ` field (the target type is stored in `_type` and read through `type`), so the attribute access fails | any `Cast` op | pass the op's target type | not executed | EmitFunc.CastCodeAsWritten | EmitFunc.CastCode |
| mypyc/emitmodule.py:62-67 | `encode_as_c_string` writes the Python bytes repr, whose `\xhh` escapes C reads greedily, so a hex digit after an escape joins it | `"éa"`: `"\xc3\xa9a"` is read as `\xc3` then `\xa9a`, which does not fit a byte | a C literal that reads back as the UTF-8 bytes, e.g. with three-digit octal escapes | not executed | CString.EncodeAsWrittenMisreads | CString.EncodeAsCStringReadsBack |
| mypyc/emitmodule.py:133 | the method table entry calls `fn.cname(emitter.names)`, but `cname` is the `str` set by `FuncIR.__init__` (mypyc/ops.py:1207), so the call raises `TypeError` | any module with a function | use the attribute's value, `fn.cname` | not executed | EmitModule.ModuleDefAsWrittenFails | EmitModule.ModuleDefOkIff |
