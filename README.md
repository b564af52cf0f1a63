# K++ generator core, modelled in Dafny

K++ (krapper) turns C++ headers into bindings for Kotlin/Native. It reads the
headers through libclang into a tree of wrapped elements (namespaces, classes,
methods, fields, arguments, template parameters), filters and maps that tree,
resolves every C++ type against a type mapping and emits three artefacts:

- a C shim of `extern "C"` functions over `void*` handles;
- the C header declaring them;
- Kotlin wrapper classes that call the shim.

This project models the deterministic, single-threaded logic between the parser
and the written files:

- **C++ type strings.** Parsing and classifying `const T`, `T*`, `T&`, `int [5]`, `std::string` and template names; the C and Kotlin type of each; splitting qualified names at top-level `::` and `,`.
- **Naming.** C-name mangling; uniqueness by `_` prefixes; operator classification by name and arity and the operator C names; Kotlin method renaming; local-variable allocation in nested scopes.
- **Filters.** The filter algebra (and/or/not, hierarchy, string and type tests), its builder functions and the default filter on both element trees.
- **Type resolution.** Recursive type mapping with the `RemoveElement` / `ElementUnchanged` / `ReplaceWith` answers, the reference policies, the mapping cache and the template-argument mapping of `typedAs`.
- **Element trees.** Child and parent bookkeeping; walks; clones; removal of duplicate methods; the class rewrite before resolution (default constructor, copy constructors, void assignments, hidden new/delete); the cached `isNotEmpty` answer.
- **Code text.** The indenting code-string builder, symbol rendering with the semicolon rule, the import block.
- **Code generation.** The C and Kotlin method bodies: return styles, argument casts, field accessors, operators.
- **Plugin mappings.** What a mapping plugin records when its code edits the tree.
- **Build paths.** File paths and compiler flags.

Stateful objects become classes: the name handler and namers, the scopes, the
builders, the resolve context and tracker, and both element kinds with their
children lists. Each method's `ensures` ties its new state to a specification
function, and lemmas prove what those functions promise. Pure logic becomes
functions and lemmas, and loops become `for` or `while` loops with invariants.

Conventions used throughout:

- Kotlin exceptions (`error`, `require`, `!!`, out-of-range indexing) become `Fail` values of a `Result`.
- Object identity (`===`) is modelled by a numeric `id` where the code relies on it.

## Model

| member | source | states |
|---|---|---|
| CppTypes.RefUnconst | krapper_gen/src/nativeMain/kotlin/com/monkopedia/krapper/generator/model/type/WrappedTypeReference.kt:74-75 | A name without the `const ` prefix comes back unchanged; a const name loses at least the prefix. `UnconstPrefix`, `UnconstPadded` and `UnconstOnce` state the value: exactly one leading `const ` goes and the rest is trimmed. |
| CppTypes.RefIsArray | krapper_gen/src/nativeMain/kotlin/com/monkopedia/krapper/generator/model/type/WrappedTypeReference.kt:48-49 | A name is an array when it ends in `]`. No contract of its own; `CppTypes.RefArrayType` and `RefArraySize` state what follows from it. |
| CppTypes.RefIsConst | krapper_gen/src/nativeMain/kotlin/com/monkopedia/krapper/generator/model/type/WrappedTypeReference.kt:72-73 | A name is const when it starts with `const `. No contract of its own; `CppTypes.RefUnconst` and `UnconstPrefix` state what follows from it. |
| CppTypes.RefIsString | krapper_gen/src/nativeMain/kotlin/com/monkopedia/krapper/generator/model/type/WrappedTypeReference.kt:76-77 | A name is a string when its unconst form is `std::string`. No contract of its own; `CppTypes.StringIsNative` and `RefCType` state what follows from it. |
| CppTypes.RefIsReturnable | krapper_gen/src/nativeMain/kotlin/com/monkopedia/krapper/generator/model/type/WrappedTypeReference.kt:83-84 | A name is returnable when it is native as written, a string, or `long double`. No contract of its own; `CppTypes.ReturnableNames` states that each such name has a C type. |
| CppTypes.UnconstPrefix | krapper_gen/src/nativeMain/kotlin/com/monkopedia/krapper/generator/model/type/WrappedTypeReference.kt:74-75 | A trimmed name behind `const ` is const, and unconst gives exactly that name back, even when it is const itself. |
| CppTypes.UnconstPadded | krapper_gen/src/nativeMain/kotlin/com/monkopedia/krapper/generator/model/type/WrappedTypeReference.kt:74-75 | Blanks around the name behind `const ` are trimmed away. |
| CppTypes.UnconstOnce | krapper_gen/src/nativeMain/kotlin/com/monkopedia/krapper/generator/model/type/WrappedTypeReference.kt:74-75 | `const const int` loses one `const ` only. |
| CppTypes.RefArrayType | krapper_gen/src/nativeMain/kotlin/com/monkopedia/krapper/generator/model/type/WrappedTypeReference.kt:61-71 | Succeeds exactly when the name ends in `]` and contains a `[`; when either check fails the result is IllegalArgument. The element name is the text before the first `[`, trimmed, and so strictly shorter than the array name. |
| CppTypes.RefArraySize | krapper_gen/src/nativeMain/kotlin/com/monkopedia/krapper/generator/model/type/WrappedTypeReference.kt:50-60 | A name that does not end in `]` fails with IllegalArgument; an array name without `[` has size -1; the only other failures are an index error and a number-format error. `ArraySizeRoundTrip` states that a size written in brackets reads back. |
| CppTypes.RefIsNative | krapper_gen/src/nativeMain/kotlin/com/monkopedia/krapper/generator/model/type/WrappedTypeReference.kt:79-82 | No contract of its own; `StringIsNative` states that strings are native, `NativeNotConst` that native names are not const, and `MalformedArrayNotNative` the name on which the model answers false where the source throws. |
| CppTypes.MalformedArrayNotNative | krapper_gen/src/nativeMain/kotlin/com/monkopedia/krapper/generator/model/type/WrappedTypeReference.kt:61-82 | `int]` ends in `]` but holds no `[`, so `arrayType` fails its requirement; the model's `isNative` answers false there. |
| CppTypes.RefCType | krapper_gen/src/nativeMain/kotlin/com/monkopedia/krapper/generator/model/type/WrappedTypeReference.kt:87-99 | Succeeds exactly for a string, a native name or `long double`, failing otherwise with IllegalState; a string becomes `const char*` and any other native name is kept. |
| CppTypes.Const | krapper_gen/src/nativeMain/kotlin/com/monkopedia/krapper/generator/model/type/WrappedType.kt:220-223 | The result is const; a const type comes back as is; any other type gets one `const` prefix over it. |
| CppTypes.PointerTo | krapper_gen/src/nativeMain/kotlin/com/monkopedia/krapper/generator/model/type/WrappedType.kt:208-210 | A pointer to the type: returnable, native exactly when the type is, and `pointed` gives the type back. |
| CppTypes.ReferenceTo | krapper_gen/src/nativeMain/kotlin/com/monkopedia/krapper/generator/model/type/WrappedType.kt:212-214 | A reference to the type: returnable, native exactly when the type is, and `unreferenced` gives the type back. |
| CppTypes.ArrayOf | krapper_gen/src/nativeMain/kotlin/com/monkopedia/krapper/generator/model/type/WrappedType.kt:216-218 | An array of the type: an array, neither a pointer nor a reference, native exactly when the type is. |
| CppTypes.Pointed | krapper_gen/src/nativeMain/kotlin/com/monkopedia/krapper/generator/model/type/WrappedModifiedType.kt:40-84 | Succeeds exactly on pointer types (a const prefix over a pointer included) and yields a strictly smaller type. |
| CppTypes.Unreferenced | krapper_gen/src/nativeMain/kotlin/com/monkopedia/krapper/generator/model/type/WrappedModifiedType.kt:48-93 | Succeeds exactly on reference types and yields a strictly smaller type. |
| CppTypes.Unconst | krapper_gen/src/nativeMain/kotlin/com/monkopedia/krapper/generator/model/type/WrappedModifiedType.kt:53-99 | Never grows the type, strictly shrinks a const one, and always succeeds on a const type. |
| CppTypes.PointerCType | krapper_gen/src/nativeMain/kotlin/com/monkopedia/krapper/generator/model/type/WrappedModifiedType.kt:21-30 | A pointer or reference to a class type is `void*` in C; to a native type it keeps the C pointee. |
| CppTypes.NativePointerExample | krapper_gen/src/nativeMain/kotlin/com/monkopedia/krapper/generator/model/type/WrappedModifiedType.kt:21-60 | `int*` stays `int*` in C and prints as `int*`. |
| CppTypes.ReturnableModifiers | krapper_gen/src/nativeMain/kotlin/com/monkopedia/krapper/generator/model/type/WrappedModifiedType.kt:19-64 | Pointers and references are always returnable; a const prefix does not change returnability. |
| CppTypes.ConstRoundTrip | krapper_gen/src/nativeMain/kotlin/com/monkopedia/krapper/generator/model/type/WrappedType.kt:220-223 | `const` is idempotent and `unconst` undoes it on a non-const type. |
| CppTypes.PointedUnreferencedDomain | krapper_gen/src/nativeMain/kotlin/com/monkopedia/krapper/generator/model/type/WrappedModifiedType.kt:40-52 | `pointed` works exactly for `*`, `unreferenced` exactly for `&`. |
| CppTypes.ArrayNameExamples | krapper_gen/src/nativeMain/kotlin/com/monkopedia/krapper/generator/model/type/WrappedTypeReference.kt:50-60 | `int [5]` has array size 5. |
| CppTypes.ArrayTypeExample | krapper_gen/src/nativeMain/kotlin/com/monkopedia/krapper/generator/model/type/WrappedTypeReference.kt:61-71 | `int [5]` has element type `int`. |
| CppTypes.UnsizedArrayExamples | krapper_gen/src/nativeMain/kotlin/com/monkopedia/krapper/generator/model/type/WrappedTypeReference.kt:50-60 | `int []` has size -1; a non-array name fails the requirement. |
| CppTypes.ArraySizeRoundTrip | krapper_gen/src/nativeMain/kotlin/com/monkopedia/krapper/generator/model/type/WrappedTypeReference.kt:50-60 | Writing a size between brackets and reading the array size back gives that size. |
| CppTypes.StringIsNative | krapper_gen/src/nativeMain/kotlin/com/monkopedia/krapper/generator/model/type/WrappedTypeReference.kt:76-82 | `std::string` and `const std::string` are strings and native. |
| CppTypes.NativeNotConst | krapper_gen/src/nativeMain/kotlin/com/monkopedia/krapper/generator/model/type/WrappedTypeReference.kt:20-75 | No native name starts with `const `, so unconst leaves it alone. |
| CppTypes.ReturnableNames | krapper_gen/src/nativeMain/kotlin/com/monkopedia/krapper/generator/model/type/WrappedTypeReference.kt:83-99 | Every returnable name (native, string, long double) has a C type. |
| CppTypes.IsNative | krapper_gen/src/nativeMain/kotlin/com/monkopedia/krapper/generator/model/type/WrappedModifiedType.kt:32-72 | A type is native by its name (a native name, a string, or an array of a native name) or through a modifier or prefix on a native base; template instantiations and the unresolved leaves never are. A name ending in `]` without `[` counts as not native, where the source throws. |
| CppTypes.IsString | krapper_gen/src/nativeMain/kotlin/com/monkopedia/krapper/generator/model/type/WrappedModifiedType.kt:34-74 | A `std::string`, possibly const and under modifiers or prefixes; every string type is native. |
| CppTypes.IsPointer | krapper_gen/src/nativeMain/kotlin/com/monkopedia/krapper/generator/model/type/WrappedModifiedType.kt:42-84 | A `*` modifier, possibly under prefixes; a pointer is never a reference and never an array. |
| CppTypes.IsReference | krapper_gen/src/nativeMain/kotlin/com/monkopedia/krapper/generator/model/type/WrappedModifiedType.kt:51-93 | A `&` modifier, possibly under prefixes; a reference is never an array and is always returnable. |
| CppTypes.IsConst | krapper_gen/src/nativeMain/kotlin/com/monkopedia/krapper/generator/model/type/WrappedModifiedType.kt:53-95 | A `const` prefix at any level above the name, or a name spelled with `const `; templates and the unresolved leaves never are. |
| CppTypes.CType | krapper_gen/src/nativeMain/kotlin/com/monkopedia/krapper/generator/model/type/WrappedModifiedType.kt:21-69 | Every string type crosses to C as `const char*`, and no C type produced contains a reference (references become pointers). |
| CppTypes.IsReturnable | krapper_gen/src/nativeMain/kotlin/com/monkopedia/krapper/generator/model/type/WrappedModifiedType.kt:19-64 | Pointers and references are returnable, a modifier or prefix over a returnable base is too, and a name is when it is native, a string or `long double`; templates and the unresolved leaves never are. |
| CppTypes.ToString | krapper_gen/src/nativeMain/kotlin/com/monkopedia/krapper/generator/model/type/WrappedModifiedType.kt:58-103 | The C++ spelling: base then modifier, prefix then base; `CppTypeParse.ParseCanonical` proves that parsing reads every canonical spelling back. |
| CppTypeParse.Parse | krapper_gen/src/nativeMain/kotlin/com/monkopedia/krapper/generator/model/type/WrappedType.kt:88-107 | The only failure is IllegalArgument, the empty spelling fails, and a spelling starting with `const ` reads as a const type. |
| CppTypeParse.ParseExamples | krapper_gen/src/nativeMain/kotlin/com/monkopedia/krapper/generator/model/type/WrappedType.kt:88-107 | `void` is the shared void type, `std::size_t` reads as `size_t`, and the empty spelling fails with IllegalArgument. |
| CppTypeParse.PlainNotConst | krapper_gen/src/nativeMain/kotlin/com/monkopedia/krapper/generator/model/type/WrappedType.kt:220-223 | A type built without const prefixes is not const. |
| CppTypeParse.PlainSpelling | krapper_gen/src/nativeMain/kotlin/com/monkopedia/krapper/generator/model/type/WrappedModifiedType.kt:58-103 | The spelling of a prefix-free type is trimmed, starts with neither `const ` nor `typename `, and is never `std::size_t`. |
| CppTypeParse.ParsePlain | krapper_gen/src/nativeMain/kotlin/com/monkopedia/krapper/generator/model/type/WrappedType.kt:88-107 | Parsing the spelling of a prefix-free type gives the type back. |
| CppTypeParse.ParseCanonical | krapper_gen/src/nativeMain/kotlin/com/monkopedia/krapper/generator/model/type/WrappedType.kt:88-107 | Round trip: every canonical type (const prefixes outermost) is the parse of its own spelling. |
| CppTypeParse.TypeCache.constructor | krapper_gen/src/nativeMain/kotlin/com/monkopedia/krapper/generator/model/type/WrappedType.kt:47-48 | The cache of spellings starts empty and consistent. |
| CppTypeParse.TypeCache.Invoke | krapper_gen/src/nativeMain/kotlin/com/monkopedia/krapper/generator/model/type/WrappedType.kt:88-107 | Returns exactly the parse of the spelling, whether or not it was cached; the cache only grows and every entry stays the parse of its key. |
| Unique.FreeName | krapper_gen/src/nativeMain/kotlin/com/monkopedia/krapper/generator/codegen/NameHandler.kt:54-59 | The name handed out is not yet taken, is the requested name when that is free, and is longer otherwise. |
| Unique.FreeNameIsFirstFree | krapper_gen/src/nativeMain/kotlin/com/monkopedia/krapper/generator/codegen/NameHandler.kt:54-59 | The name handed out is the request with underscores in front, and every shorter underscore-prefixed form is taken. |
| Unique.FreeNameAfterUse | krapper_gen/src/nativeMain/kotlin/com/monkopedia/krapper/generator/codegen/NameHandler.kt:54-59 | Once a name is recorded, the same request yields a different name. |
| Unique.FreeNameSequence | krapper_gen/src/nativeMain/kotlin/com/monkopedia/krapper/generator/codegen/NameHandler.kt:54-59 | Four requests for one name give `n`, `_n`, `__n`, `___n`. |
| KotlinTypes.FullyQualifiedSplit | krapper_gen/src/nativeMain/kotlin/com/monkopedia/krapper/generator/model/WrappedKotlinType.kt:245-260 | The simple name is the text after the last `.` and holds no `.`; package, `.` and name give back the full name; a name without `.` has an empty package. |
| KotlinTypes.Nullable | krapper_gen/src/nativeMain/kotlin/com/monkopedia/krapper/generator/model/WrappedKotlinType.kt:136-151 | The name gains a trailing `?`; wrapper flag, package and imports are those of the base. |
| KotlinTypes.TypedWith | krapper_gen/src/nativeMain/kotlin/com/monkopedia/krapper/generator/model/WrappedKotlinType.kt:170-186 | The name is `Base<A, B>`; the imports are the arguments' imports followed by the base's; wrapper flag and package are the base's. |
| KotlinTypes.FromName | krapper_gen/src/nativeMain/kotlin/com/monkopedia/krapper/generator/model/WrappedKotlinType.kt:153-168 | Every type read from a C++ name is a generated wrapper type, the template arguments included. |
| KotlinTypes.ParseTypes | krapper_gen/src/nativeMain/kotlin/com/monkopedia/krapper/generator/model/WrappedKotlinType.kt:188-192 | Each piece `findTemplates` cuts becomes one Kotlin type, in order, and every one of them is a wrapper type; a failing scan fails the parse. |
| KotlinTypes.ReplaceSeparatorExample | krapper_gen/src/nativeMain/kotlin/com/monkopedia/krapper/generator/model/WrappedKotlinType.kt:167 | `ns::Obj` becomes `ns.Obj`. |
| KotlinTypes.SplitExample | krapper_gen/src/nativeMain/kotlin/com/monkopedia/krapper/generator/model/WrappedKotlinType.kt:252-254 | `ns.Obj` splits into `ns` and `Obj`. |
| KotlinTypes.FromNameExample | krapper_gen/src/nativeMain/kotlin/com/monkopedia/krapper/generator/model/WrappedKotlinType.kt:153-168 | `ns::Obj` is the wrapper type `Obj` in package `ns`. |
| KotlinTypes.ReferenceLikeReferent | krapper_gen/src/nativeMain/kotlin/com/monkopedia/krapper/generator/model/WrappedKotlinType.kt:103-105 | A reference maps exactly like the type it refers to. |
| KotlinTypes.PointerToClassIsNullable | krapper_gen/src/nativeMain/kotlin/com/monkopedia/krapper/generator/model/WrappedKotlinType.kt:88-102 | A pointer to a class type is the nullable form of the class's Kotlin type, and fails exactly when the class's does. |
| KotlinTypes.PointerToNative | krapper_gen/src/nativeMain/kotlin/com/monkopedia/krapper/generator/model/WrappedKotlinType.kt:92-99 | A pointer to a native type with a cinterop variable type is a nullable `CValuesRef` of that variable type. |
| KotlinTypes.NoConstPointerKey | krapper_gen/src/nativeMain/kotlin/com/monkopedia/krapper/generator/model/WrappedKotlinType.kt:56-75 | No key of the pointer table is `const char`. |
| KotlinTypes.IntPointerExample | krapper_gen/src/nativeMain/kotlin/com/monkopedia/krapper/generator/model/WrappedKotlinType.kt:92-99 | `int*` is `CValuesRef<IntVar>?`. |
| KotlinTypes.NativeNameExample | krapper_gen/src/nativeMain/kotlin/com/monkopedia/krapper/generator/model/WrappedKotlinType.kt:31-54 | `unsigned long` is `ULong`. |
| KotlinTypes.FullyQualifiedType | krapper_gen/src/nativeMain/kotlin/com/monkopedia/krapper/generator/model/WrappedKotlinType.kt:245-260 | Builds the type from a dotted name; `KotlinTypes.FullyQualifiedSplit` proves how the name splits into package and simple name. |
| KotlinTypes.FromType | krapper_gen/src/nativeMain/kotlin/com/monkopedia/krapper/generator/model/WrappedKotlinType.kt:77-134 | The Kotlin type of a C++ type; its cases are stated by `KotlinTypes.ReferenceLikeReferent`, `KotlinTypes.PointerToClassIsNullable`, `KotlinTypes.PointerToNative` and the examples. |
| TemplateScan.CloseFrom | krapper_gen/src/nativeMain/kotlin/com/monkopedia/krapper/generator/model/WrappedKotlinType.kt:231-243 | Any index found holds a `>` at or after the scan start; the only failure is IllegalState. |
| TemplateScan.MatchingClose | krapper_gen/src/nativeMain/kotlin/com/monkopedia/krapper/generator/model/WrappedKotlinType.kt:231-243 | Any index found holds a `>` after the opening `<`. |
| TemplateScan.FindEnd | krapper_gen/src/nativeMain/kotlin/com/monkopedia/krapper/generator/model/WrappedKotlinType.kt:231-243 | The loop returns exactly the index of the `>` matching the `<` at the start, or IllegalState when the text ends first. |
| TemplateScan.CloseFromDepth | krapper_gen/src/nativeMain/kotlin/com/monkopedia/krapper/generator/model/WrappedKotlinType.kt:231-243 | The scan stays at positive bracket depth until the index it returns and is back at depth zero after it; when it fails, the brackets are never closed. |
| TemplateScan.MatchingCloseDepth | krapper_gen/src/nativeMain/kotlin/com/monkopedia/krapper/generator/model/WrappedKotlinType.kt:231-243 | A top-level `<` is closed at the first point where the depth returns to zero; if it never does, the search fails. |
| TemplateScan.FindEndAsWritten | krapper_gen/src/nativeMain/kotlin/com/monkopedia/krapper/generator/model/WrappedKotlinType.kt:231-243 | The search as written: any index it returns lies after the start, and its only failure is IllegalState. |
| TemplateScan.FindEndSiblingCounterexample | krapper_gen/src/nativeMain/kotlin/com/monkopedia/krapper/generator/model/WrappedKotlinType.kt:231-243 | On `a<b>,c<d>` from index 1 the search as written fails, although the matching `>` is at index 3. |
| TemplateScan.Templates | krapper_gen/src/nativeMain/kotlin/com/monkopedia/krapper/generator/model/WrappedKotlinType.kt:214-229 | The specification of `findTemplates` with the corrected `findEnd`: its success and its cuts are stated by `TemplateScan.TemplatesSplitAtTopLevelCommas`. |
| TemplateScan.FindTemplates | krapper_gen/src/nativeMain/kotlin/com/monkopedia/krapper/generator/model/WrappedKotlinType.kt:214-229 | The loop, on the corrected `findEnd`, returns exactly the ranges of the specification function `Templates`. |
| TemplateScan.TemplatesFromAsWritten | krapper_gen/src/nativeMain/kotlin/com/monkopedia/krapper/generator/model/WrappedKotlinType.kt:214-229 | The loop of `findTemplates` as written, on the as-written `findEnd`: on success the first range starts at `last`, and its only failure is IllegalState. `TemplatesAsWrittenAgree` and `TemplatesSiblingCounterexample` relate it to the corrected loop. |
| TemplateScan.TemplatesAsWrittenAgree | krapper_gen/src/nativeMain/kotlin/com/monkopedia/krapper/generator/model/WrappedKotlinType.kt:214-243 | Wherever the as-written `findEnd` finds the matching `>`, the as-written `findTemplates` cuts the list exactly as the corrected one. |
| TemplateScan.TemplatesSiblingCounterexample | krapper_gen/src/nativeMain/kotlin/com/monkopedia/krapper/generator/model/WrappedKotlinType.kt:214-243 | On `a<b>,c<d>` the as-written `findTemplates` fails with IllegalState, while the corrected one yields the ranges 0..3 and 4..8. |
| TemplateScan.TemplatesSplitAtTopLevelCommas | krapper_gen/src/nativeMain/kotlin/com/monkopedia/krapper/generator/model/WrappedKotlinType.kt:214-229 | With the corrected `findEnd`, `findTemplates` succeeds exactly when every `<` is closed, and then cuts only at top-level commas. |
| TemplateScan.Qualifiers | krapper_gen/src/nativeMain/kotlin/com/monkopedia/krapper/generator/model/WrappedKotlinType.kt:194-212 | The specification of `findQualifiers` with the corrected `findEnd`: its success and its cuts are stated by `TemplateScan.QualifiersSplitAtTopLevelSeparators`. |
| TemplateScan.FindQualifiers | krapper_gen/src/nativeMain/kotlin/com/monkopedia/krapper/generator/model/WrappedKotlinType.kt:194-212 | The loop, on the corrected `findEnd`, returns exactly the ranges of the specification function `Qualifiers`. |
| TemplateScan.QualifiersFromAsWritten | krapper_gen/src/nativeMain/kotlin/com/monkopedia/krapper/generator/model/WrappedKotlinType.kt:194-212 | The loop of `findQualifiers` as written, on the as-written `findEnd`: on success the first range starts after `last`, and its only failure is IllegalState. `QualifiersAsWrittenAgree` and `QualifiersSiblingCounterexample` relate it to the corrected loop. |
| TemplateScan.QualifiersAsWrittenAgree | krapper_gen/src/nativeMain/kotlin/com/monkopedia/krapper/generator/model/WrappedKotlinType.kt:194-243 | Wherever the as-written `findEnd` finds the matching `>`, the as-written `findQualifiers` cuts the name exactly as the corrected one. |
| TemplateScan.QualifiersSiblingCounterexample | krapper_gen/src/nativeMain/kotlin/com/monkopedia/krapper/generator/model/WrappedKotlinType.kt:194-243 | On `a<b>::c<d>` the as-written `findQualifiers` fails with IllegalState at the first `<`, whose matching `>` is at index 3. |
| TemplateScan.QualifiersSplitAtTopLevelSeparators | krapper_gen/src/nativeMain/kotlin/com/monkopedia/krapper/generator/model/WrappedKotlinType.kt:194-212 | With the corrected `findEnd`, `findQualifiers` succeeds exactly when every `<` is closed, and then cuts only at top-level `::`, never inside `<...>`. |
| TemplateScan.QualifiersExample | krapper_gen/src/nativeTest/kotlin/ParseTest.kt:72-83 | `std::vector<std::string>::iterator` has the segments `std`, `vector<std::string>` and `iterator`. |
| Scopes.AllNames | krapper_gen/src/nativeMain/kotlin/com/monkopedia/krapper/generator/builders/Scope.kt:27-29 | Exactly the names in some scope of the chain: every scope's names are in it, and nothing else. |
| Scopes.ScopeChain.IsUsed | krapper_gen/src/nativeMain/kotlin/com/monkopedia/krapper/generator/builders/Scope.kt:27-29 | `isUsed`: a name is used exactly when some scope from the current one up to the root holds it. |
| Scopes.Allocated | krapper_gen/src/nativeMain/kotlin/com/monkopedia/krapper/generator/builders/Scope.kt:31-38 | The name handed out is non-empty and not in sight in any enclosing scope. |
| Scopes.ScopeChain.constructor | krapper_gen/src/nativeMain/kotlin/com/monkopedia/krapper/generator/builders/CodeBuilder.kt:60-69 | A builder starts with one root scope holding only `object`. |
| Scopes.ScopeChain.AllocateName | krapper_gen/src/nativeMain/kotlin/com/monkopedia/krapper/generator/builders/Scope.kt:31-38 | Hands out the first free underscore-prefixed form of the request (`v` for an empty one), records it in the current scope only, and fails when no scope is left. |
| Scopes.ScopeChain.FirstUnused | krapper_gen/src/nativeMain/kotlin/com/monkopedia/krapper/generator/builders/Scope.kt:33-35 | The loop returns the first name of `name`, `_name`, ... used by no scope of the chain. |
| Scopes.ScopeChain.PushScope | krapper_gen/src/nativeMain/kotlin/com/monkopedia/krapper/generator/builders/CodeBuilder.kt:89-91 | Adds a fresh scope (holding `object`) on top of the chain; with no scope left, `scopes.last()` fails with NoSuchElement and nothing changes. |
| Scopes.ScopeChain.PopScope | krapper_gen/src/nativeMain/kotlin/com/monkopedia/krapper/generator/builders/CodeBuilder.kt:93-95 | Drops the current scope; with none left, fails like `removeLast` on an empty list. |
| Scopes.ScopeChain.FunctionScope | krapper_gen/src/nativeMain/kotlin/com/monkopedia/krapper/generator/builders/Scope.kt:66-77 | Locals defined inside a function scope are distinct, unused outside it, and the scope chain is restored afterwards; it fails with NoSuchElement exactly when the chain is empty. |
| Scopes.AllocationExamples | krapper_gen/src/nativeMain/kotlin/com/monkopedia/krapper/generator/builders/Scope.kt:31-38 | A second `str` becomes `_str`, an empty request `v`, and `object` is reserved from the start. |
| CodeStrings.Spaces | krapper_gen/src/nativeMain/kotlin/com/monkopedia/krapper/generator/builders/CodeStringBuilder.kt:68-72 | Four spaces per open block, none at or below zero. |
| CodeStrings.CodeStringBuilder.constructor | krapper_gen/src/nativeMain/kotlin/com/monkopedia/krapper/generator/builders/CodeStringBuilder.kt:18-20 | An empty text at indentation zero. |
| CodeStrings.CodeStringBuilder.StartBlock | krapper_gen/src/nativeMain/kotlin/com/monkopedia/krapper/generator/builders/CodeStringBuilder.kt:22-24 | One more level of indentation; the text is unchanged. |
| CodeStrings.CodeStringBuilder.EndBlock | krapper_gen/src/nativeMain/kotlin/com/monkopedia/krapper/generator/builders/CodeStringBuilder.kt:26-28 | One level less; the text is unchanged. |
| CodeStrings.CodeStringBuilder.AppendChar | krapper_gen/src/nativeMain/kotlin/com/monkopedia/krapper/generator/builders/CodeStringBuilder.kt:36-41 | Appends one character, indenting first when it starts a line. |
| CodeStrings.CodeStringBuilder.Append | krapper_gen/src/nativeMain/kotlin/com/monkopedia/krapper/generator/builders/CodeStringBuilder.kt:43-50 | Appends the string piece by piece between newlines. |
| CodeStrings.CodeStringBuilder.RemoveLast | krapper_gen/src/nativeMain/kotlin/com/monkopedia/krapper/generator/builders/CodeStringBuilder.kt:52-54 | Deletes the last character; on an empty text fails with IndexOutOfBounds and changes nothing. |
| CodeStrings.CodeStringBuilder.AppendPiece | krapper_gen/src/nativeMain/kotlin/com/monkopedia/krapper/generator/builders/CodeStringBuilder.kt:56-60 | An empty piece writes nothing; any other is indented when it starts a line. |
| CodeStrings.CodeStringBuilder.CheckNewLineStep | krapper_gen/src/nativeMain/kotlin/com/monkopedia/krapper/generator/builders/CodeStringBuilder.kt:62-66 | Indents only when the text ends with a newline. |
| CodeStrings.NewlineNotIndented | krapper_gen/src/nativeMain/kotlin/com/monkopedia/krapper/generator/builders/CodeStringBuilder.kt:36-41 | A newline is appended without indentation. |
| CodeStrings.IndentAtLineStart | krapper_gen/src/nativeMain/kotlin/com/monkopedia/krapper/generator/builders/CodeStringBuilder.kt:36-72 | The first character of a line gets four spaces per open block; any other character is appended as is. |
| CodeStrings.PutCharsConcat | krapper_gen/src/nativeMain/kotlin/com/monkopedia/krapper/generator/builders/CodeStringBuilder.kt:36-41 | Appending characters one at a time composes. |
| CodeStrings.PutCharsMidLine | krapper_gen/src/nativeMain/kotlin/com/monkopedia/krapper/generator/builders/CodeStringBuilder.kt:36-41 | In the middle of a line, text without newlines is appended verbatim. |
| CodeStrings.PutStringIsPutChars | krapper_gen/src/nativeMain/kotlin/com/monkopedia/krapper/generator/builders/CodeStringBuilder.kt:43-60 | `append(str)` writes exactly what appending its characters one at a time writes. |
| CodeStrings.PutStringConcat | krapper_gen/src/nativeMain/kotlin/com/monkopedia/krapper/generator/builders/CodeStringBuilder.kt:43-60 | How a text is cut into `append` calls does not change the output. |
| CodeStrings.NoIndentAtTop | krapper_gen/src/nativeMain/kotlin/com/monkopedia/krapper/generator/builders/CodeStringBuilder.kt:68-72 | With no open block nothing is ever indented. |
| CodeStrings.FirstLineNotIndented | krapper_gen/src/nativeMain/kotlin/com/monkopedia/krapper/generator/builders/CodeStringBuilder.kt:62-66 | The first line written to an empty builder is never indented. |
| Symbols.Build | krapper_gen/src/nativeMain/kotlin/com/monkopedia/krapper/generator/builders/BasicSymbols.kt:20-154 | Writing any symbol into a builder produces exactly `Render` of it from the old text and indentation, and leaves the indentation as it was. |
| Symbols.BuildCompound | krapper_gen/src/nativeMain/kotlin/com/monkopedia/krapper/generator/builders/BasicSymbols.kt:72-89 | Calls, casts and blocks write exactly their rendering. |
| Symbols.BuildInfix | krapper_gen/src/nativeMain/kotlin/com/monkopedia/krapper/generator/builders/BasicSymbols.kt:91-130 | `.`, `->`, ` = ` and operator symbols write the first part, the separator and the second part. |
| Symbols.BuildArgs | krapper_gen/src/nativeMain/kotlin/com/monkopedia/krapper/generator/builders/BasicSymbols.kt:81-86 | The arguments of a call are written with `, ` between them. |
| Symbols.BuildLines | krapper_gen/src/nativeMain/kotlin/com/monkopedia/krapper/generator/builders/BlockSymbol.kt:30-43 | Each symbol of a body is written, then `;` when semicolons are on and the symbol is not a block, then a newline. |
| Symbols.RenderOneLine | krapper_gen/src/nativeMain/kotlin/com/monkopedia/krapper/generator/builders/BasicSymbols.kt:20-154 | A symbol whose text has no newline is written as one piece: indented only when it starts a line. |
| Symbols.RenderMidLine | krapper_gen/src/nativeMain/kotlin/com/monkopedia/krapper/generator/builders/BasicSymbols.kt:20-154 | In the middle of a line such a symbol writes exactly its text. |
| Symbols.RenderAtLineStart | krapper_gen/src/nativeMain/kotlin/com/monkopedia/krapper/generator/builders/BasicSymbols.kt:20-154 | At the start of a line it is preceded by four spaces per open block. |
| Symbols.RenderLinesIndented | krapper_gen/src/nativeMain/kotlin/com/monkopedia/krapper/generator/builders/BlockSymbol.kt:33-41 | Every one-line symbol of a body gets a line of its own at the body's indentation, ending with its `;` when due and a newline. |
| Symbols.LineStep | krapper_gen/src/nativeMain/kotlin/com/monkopedia/krapper/generator/builders/BlockSymbol.kt:34-40 | One body symbol: its line, its `;` when due, and the newline. |
| Symbols.PieceLine | krapper_gen/src/nativeMain/kotlin/com/monkopedia/krapper/generator/builders/BlockSymbol.kt:34-40 | A piece of text, an optional `;` and a newline written at the start of a line form one indented line. |
| Symbols.BlockLayout | krapper_gen/src/nativeMain/kotlin/com/monkopedia/krapper/generator/builders/BlockSymbol.kt:30-43 | A block writes its head, its body one level deeper, and its closing symbol back at the block's own level. |
| Symbols.FreeCallLine | krapper_gen/src/nativeMain/kotlin/com/monkopedia/krapper/generator/builders/BlockSymbol.kt:30-43 | The call `free(x)` in a body one level deep is the line `    free(x)`. |
| Symbols.DeferBlockExample | krapper_gen/src/nativeMain/kotlin/com/monkopedia/krapper/generator/builders/BlockSymbol.kt:30-43 | A `defer {` block holding `free(x)` and closed by `}` renders as three lines with the call indented. |
| Symbols.FlatLinesEnd | krapper_gen/src/nativeMain/kotlin/com/monkopedia/krapper/generator/builders/BlockSymbol.kt:39 | Lines of symbols always end with a newline. |
| Symbols.RenderAtTop | krapper_gen/src/nativeMain/kotlin/com/monkopedia/krapper/generator/builders/BasicSymbols.kt:20-154 | With no open block, a symbol without blocks writes exactly its text. |
| Symbols.RenderLinesAtTop | krapper_gen/src/nativeMain/kotlin/com/monkopedia/krapper/generator/builders/CodeBuilder.kt:77-87 | With no open block, a list of block-free symbols is written as each symbol's text, its `;` when due, and a newline. |
| CodeBuilders.CodeBuilderBase.constructor | krapper_gen/src/nativeMain/kotlin/com/monkopedia/krapper/generator/builders/CodeBuilder.kt:60-69 | A root builder starts with no symbols and one root scope that knows only `object`. |
| CodeBuilders.CodeBuilderBase.AddSymbol | krapper_gen/src/nativeMain/kotlin/com/monkopedia/krapper/generator/builders/CodeBuilder.kt:73-75 | Appends the symbol and changes nothing else. |
| CodeBuilders.CodeBuilderBase.AppendLine | krapper_gen/src/nativeMain/kotlin/com/monkopedia/krapper/generator/builders/CodeBuilder.kt:98-100 | Appends the empty symbol. |
| CodeBuilders.CodeBuilderBase.AddBlock | krapper_gen/src/nativeMain/kotlin/com/monkopedia/krapper/generator/builders/BlockSymbol.kt:60-66 | The finished block joins the symbols as one block symbol with its head, body and closing symbol. |
| CodeBuilders.CodeBuilderBase.PushScope | krapper_gen/src/nativeMain/kotlin/com/monkopedia/krapper/generator/builders/CodeBuilder.kt:89-91 | Adds a fresh innermost scope holding `object`; on an empty scope list it fails with NoSuchElement and changes nothing. |
| CodeBuilders.CodeBuilderBase.PopScope | krapper_gen/src/nativeMain/kotlin/com/monkopedia/krapper/generator/builders/CodeBuilder.kt:93-95 | Drops the innermost scope; with none left, fails like `removeLast` on an empty list. |
| CodeBuilders.CodeBuilderBase.Define | krapper_gen/src/nativeMain/kotlin/com/monkopedia/krapper/generator/builders/Scope.kt:56-64 | The local's name is allocated in the current scope, unique among every name in sight; with no scope left it fails. |
| CodeBuilders.CodeBuilderBase.ToText | krapper_gen/src/nativeMain/kotlin/com/monkopedia/krapper/generator/builders/CodeBuilder.kt:77-87 | The text is every symbol on a line of its own, rendered into a fresh builder. |
| CodeBuilders.BlockBuilder.constructor | krapper_gen/src/nativeMain/kotlin/com/monkopedia/krapper/generator/builders/BlockSymbol.kt:18-23 | A block starts with its head, its optional closing symbol and an empty body. |
| CodeBuilders.BlockBuilder.AddSymbol | krapper_gen/src/nativeMain/kotlin/com/monkopedia/krapper/generator/builders/BlockSymbol.kt:45-47 | Symbols added to a block go into its body. |
| CodeBuilders.BlockBuilder.Children | krapper_gen/src/nativeMain/kotlin/com/monkopedia/krapper/generator/builders/BlockSymbol.kt:24-25 | The head, then the body, then the closing symbol when there is one. |
| CodeBuilders.BlockBuilder.AsSymbol | krapper_gen/src/nativeMain/kotlin/com/monkopedia/krapper/generator/builders/BlockSymbol.kt:27-28 | A block is never followed by `;`. |
| CodeBuilders.ToTextFlat | krapper_gen/src/nativeMain/kotlin/com/monkopedia/krapper/generator/builders/CodeBuilder.kt:77-87 | For block-free symbols the text is each symbol's text, its `;` when due, and a newline. |
| CodeBuilders.StatementLines | krapper_gen/src/nativeMain/kotlin/com/monkopedia/krapper/generator/builders/CodeBuilder.kt:77-87 | With semicolons on, a statement line ends in `;` and an empty line is a bare newline. |
| StringOrder.Insert | krapper_gen/src/nativeMain/kotlin/com/monkopedia/krapper/generator/builders/ImportBlock.kt:29 | Inserting into a sorted list without duplicates keeps it sorted and without duplicates, and adds exactly the new element. |
| StringOrder.SortedDistinct | krapper_gen/src/nativeMain/kotlin/com/monkopedia/krapper/generator/builders/ImportBlock.kt:29 | `toSet().sorted()`: strictly sorted, holding exactly the elements of the input. |
| StringOrder.SortedUnique | krapper_gen/src/nativeMain/kotlin/com/monkopedia/krapper/generator/builders/ImportBlock.kt:29 | A strictly sorted list is determined by its elements, so the result does not depend on the order names were found in. |
| StringOrder.SortedDistinctExample | krapper_gen/src/nativeMain/kotlin/com/monkopedia/krapper/generator/builders/ImportBlock.kt:29 | `[b, a, b]` becomes `[a, b]`. |
| ImportBlocks.ImportedNames | krapper_gen/src/nativeMain/kotlin/com/monkopedia/krapper/generator/builders/ImportBlock.kt:28-40 | No contract of its own; `ImportedNamesSpec` states that the names are strictly sorted and are exactly the imported names the file refers to. |
| ImportBlocks.FilterImported | krapper_gen/src/nativeMain/kotlin/com/monkopedia/krapper/generator/builders/ImportBlock.kt:30-36 | Keeps exactly the names to import, never more than there were. |
| ImportBlocks.FilterSorted | krapper_gen/src/nativeMain/kotlin/com/monkopedia/krapper/generator/builders/ImportBlock.kt:29-36 | Skipping names keeps the list sorted. |
| ImportBlocks.ImportedNamesSpec | krapper_gen/src/nativeMain/kotlin/com/monkopedia/krapper/generator/builders/ImportBlock.kt:28-40 | The block names every imported name its file refers to exactly once, in sorted order, and nothing else. |
| ImportBlocks.FqNames | krapper_gen/src/nativeMain/kotlin/com/monkopedia/krapper/generator/builders/ImportBlock.kt:47-66 | `findFqSymbols(...).flatMap { it.fqNames }` for one symbol: its own names, then those of the symbols it contains. No contract of its own; `ImportBlocks.ImportedNamesSpec` states that the block names exactly the imported names among them, sorted and once each. |
| ImportBlocks.Imported | krapper_gen/src/nativeMain/kotlin/com/monkopedia/krapper/generator/builders/ImportBlock.kt:31-36 | The filter of `build`: names in the root package and names directly in the file's package are skipped. No contract of its own; `ImportBlocks.ImportedExamples` states all four cases and `FilterImported` that the block keeps exactly the names it accepts. |
| ImportBlocks.ImportLineStep | krapper_gen/src/nativeMain/kotlin/com/monkopedia/krapper/generator/builders/ImportBlock.kt:37-38 | Each import is written as `import <name>` and a newline. |
| ImportBlocks.BuildImportBlock | krapper_gen/src/nativeMain/kotlin/com/monkopedia/krapper/generator/builders/ImportBlock.kt:28-40 | The loop writes exactly the import lines of the sorted, filtered names and keeps the indentation. |
| ImportBlocks.ImportBlockAtTop | krapper_gen/src/nativeMain/kotlin/com/monkopedia/krapper/generator/builders/ImportBlock.kt:28-40 | At the top level of a file the import block is exactly its lines. |
| ImportBlocks.ExtensionNames | krapper_gen/src/nativeMain/kotlin/com/monkopedia/krapper/generator/builders/ImportBlock.kt:68-77 | An extension method writes its bare name and asks for `pkg.method` to be imported. |
| ImportBlocks.ImportedExamples | krapper_gen/src/nativeMain/kotlin/com/monkopedia/krapper/generator/builders/ImportBlock.kt:31-36 | A root-package name and a same-package name are skipped; names in a sub-package or another package are imported. |
| CamelCase.SplitFrom | krapper_gen/src/nativeMain/kotlin/com/monkopedia/krapper/generator/codegen/Signature.kt:38-43 | The rest of a name cut before every camel-case boundary. No contract of its own; `CamelCase.SplitFromSpec` states that the pieces join back to the rest, are non-empty, and each later piece starts with an upper-case letter at a cut. |
| CamelCase.Pieces | krapper_gen/src/nativeMain/kotlin/com/monkopedia/krapper/generator/codegen/Signature.kt:38-43 | `splitCamelcase`. No contract of its own; `CamelCase.PiecesSpec` states that there is at least one piece, that the pieces join back to the name, that none is empty, and that each later piece starts with an upper-case letter. |
| CamelCase.SplitFromSpec | krapper_gen/src/nativeMain/kotlin/com/monkopedia/krapper/generator/codegen/Signature.kt:35-43 | The pieces of the rest of a name concatenate back to it, are non-empty for a non-empty name, and every piece after the first starts with an upper-case letter at a cut. |
| CamelCase.PiecesSpec | krapper_gen/src/nativeMain/kotlin/com/monkopedia/krapper/generator/codegen/Signature.kt:38-43 | `splitCamelcase` loses nothing: the pieces join back to the name, none is empty, and each later piece begins with an upper-case letter. |
| CamelCase.SplitTail | krapper_gen/src/nativeMain/kotlin/com/monkopedia/krapper/generator/codegen/Signature.kt:35-43 | With no cut left in the rest of the name, the rest is a single piece. |
| CamelCase.PostIncrementPieces | krapper_gen/src/nativeMain/kotlin/com/monkopedia/krapper/generator/codegen/Signature.kt:38-43 | "PostIncrement" splits into "Post" and "Increment". |
| CamelCase.BinaryAndPieces | krapper_gen/src/nativeMain/kotlin/com/monkopedia/krapper/generator/codegen/Signature.kt:38-43 | "Binary_And" has no cut (`_` is no letter), so it stays one piece. |
| CamelCase.Snake | krapper_gen/src/nativeMain/kotlin/com/monkopedia/krapper/generator/codegen/Operators.kt:84-87 | The pieces lower-cased and joined with `_`. No contract of its own; `CamelCase.SnakeShape` states its shape for every name, and `PostIncrementSnake` and `BinaryAndSnake` its value on two C words. |
| CamelCase.SnakeShape | krapper_gen/src/nativeMain/kotlin/com/monkopedia/krapper/generator/codegen/Operators.kt:84-87 | The snake-case name holds no upper-case letter, and it is longer than the name by exactly one `_` per cut: no character is lost and nothing else is added. |
| CamelCase.PostIncrementSnake | krapper_gen/src/nativeMain/kotlin/com/monkopedia/krapper/generator/codegen/Operators.kt:84-87 | The C word "PostIncrement" becomes "post_increment". |
| CamelCase.BinaryAndSnake | krapper_gen/src/nativeMain/kotlin/com/monkopedia/krapper/generator/codegen/Operators.kt:84-87 | The C word "Binary_And" becomes "binary_and". |
| Operators.FindFirst | krapper_gen/src/nativeMain/kotlin/com/monkopedia/krapper/generator/codegen/Operators.kt:70-73 | The index found is that of a matching operator with no match before it; no index exactly when no operator of the table matches. |
| Operators.Matches | krapper_gen/src/nativeMain/kotlin/com/monkopedia/krapper/generator/codegen/Operators.kt:89-91 | `matches`: the symbol after `operator` is the entry's C++ symbol, with one argument for a binary or assignment entry (89-91, 142-144) and none for a unary one (167-169). No contract of its own; `MinusBinary`, `MinusUnary`, `IncrementPost` and `IncrementPre` state which entry an arity and a symbol pick. |
| Operators.From | krapper_gen/src/nativeMain/kotlin/com/monkopedia/krapper/generator/codegen/Operators.kt:70-73 | A name without the `operator` prefix is no operator; an operator found is in the table and matches the name and arity. |
| Operators.FromFirstMatch | krapper_gen/src/nativeMain/kotlin/com/monkopedia/krapper/generator/codegen/Operators.kt:70-73 | When the entry at `k` matches and none before it does, `from` yields that entry. |
| Operators.FindFirstIs | krapper_gen/src/nativeMain/kotlin/com/monkopedia/krapper/generator/codegen/Operators.kt:70-73 | The search stops at the first matching entry. |
| Operators.OperatorName | krapper_gen/src/nativeMain/kotlin/com/monkopedia/krapper/generator/codegen/Operators.kt:89-91 | The symbol compared against the table is what follows `operator` in the method name. |
| Operators.PlainMethodNoOperator | krapper_gen/src/nativeMain/kotlin/com/monkopedia/krapper/generator/codegen/Operators.kt:70-73 | `getPrivateString` is not an operator. |
| Operators.MinusBinary | krapper_gen/src/nativeMain/kotlin/com/monkopedia/krapper/generator/codegen/Operators.kt:89-91 | `operator-` with one argument is subtraction. |
| Operators.MinusUnary | krapper_gen/src/nativeMain/kotlin/com/monkopedia/krapper/generator/codegen/Operators.kt:167-169 | `operator-` with no argument is negation. |
| Operators.IncrementPost | krapper_gen/src/nativeMain/kotlin/com/monkopedia/krapper/generator/codegen/Operators.kt:118-122 | `operator++` with its dummy argument is the post-increment. |
| Operators.IncrementPre | krapper_gen/src/nativeMain/kotlin/com/monkopedia/krapper/generator/codegen/Operators.kt:167-176 | `operator++` with no argument is the pre-increment. |
| Operators.StarBinary | krapper_gen/src/nativeMain/kotlin/com/monkopedia/krapper/generator/codegen/Operators.kt:98-100 | `operator*` with one argument is multiplication. |
| Operators.StarUnary | krapper_gen/src/nativeMain/kotlin/com/monkopedia/krapper/generator/codegen/Operators.kt:167-182 | `operator*` with no argument is the dereference. |
| Operators.NameExamples | krapper_gen/src/nativeMain/kotlin/com/monkopedia/krapper/generator/codegen/Operators.kt:84-87 | The C name of an operator is the class's C name, `_op_` and the snake-cased C word, e.g. `_op_post_increment` and `_op_binary_and`. |
| Operators.Name | krapper_gen/src/nativeMain/kotlin/com/monkopedia/krapper/generator/codegen/Operators.kt:84-87 | `name`: the class's C name, `_op_` and the snake-cased C word. No contract of its own; `Operators.NameExamples` gives `_op_post_increment` and `_op_binary_and`, and `CamelCase.SnakeShape` states the shape of the snake-cased word. |
| Operators.DirectCallOperators | krapper_gen/src/nativeMain/kotlin/com/monkopedia/krapper/generator/codegen/Operators.kt:77-127 | An operator supports a direct C++ call exactly when it is binary and is not the subscript or a postfix increment or decrement. |
| Operators.AssignmentsNamed | krapper_gen/src/nativeMain/kotlin/com/monkopedia/krapper/generator/codegen/Operators.kt:131-154 | The table's assignment operators are exactly `=` and `+=`. |
| Operators.AssignmentByName | krapper_gen/src/nativeMain/kotlin/com/monkopedia/krapper/generator/codegen/Operators.kt:142-154 | `from` yields an assignment operator exactly for `operator=` and `operator+=` with one argument. |
| Operators.OnlyTwoAssignments | krapper_gen/src/nativeMain/kotlin/com/monkopedia/krapper/generator/codegen/Operators.kt:36-68 | The assignments are the last two entries of the table. |
| Methods.ResolveArguments | krapper_gen/src/nativeMain/kotlin/com/monkopedia/krapper/generator/model/WrappedMethod.kt:348-367 | A resolved list is never longer than the arguments; `ResolveArgumentsSpec` states it in full. |
| Methods.DetermineReturnStyle | krapper_gen/src/nativeMain/kotlin/com/monkopedia/krapper/generator/model/WrappedMethod.kt:242-253 | `void` exactly for a void type; `ARG_CAST` or `COPY_CONSTRUCTOR` exactly for a non-returnable type, by whether it can be assigned; `STRING` exactly for a returnable string; by-value and by-reference returns only for native types or `long double`; the reference styles only for references. |
| Methods.PointedString | krapper_gen/src/nativeMain/kotlin/com/monkopedia/krapper/generator/model/WrappedMethod.kt:247 | A pointer whose pointee is a string is itself a string type, so the string case is tested first. |
| Methods.StringPointerUnreachable | krapper_gen/src/nativeMain/kotlin/com/monkopedia/krapper/generator/model/WrappedMethod.kt:242-253 | As written, no type ever gets `STRING_POINTER`; `std::string*` gets `STRING`. |
| Methods.CorrectedReturnStyle | krapper_gen/src/nativeMain/kotlin/com/monkopedia/krapper/generator/model/WrappedMethod.kt:242-253 | With the pointer-to-string test first, `STRING_POINTER` is chosen exactly for a returnable pointer to a string, and every other type keeps its style. |
| Methods.CorrectedStringPointer | krapper_gen/src/nativeMain/kotlin/com/monkopedia/krapper/generator/model/WrappedMethod.kt:242-253 | In the corrected order `std::string*` gets `STRING_POINTER` and `std::string` still gets `STRING`. |
| Methods.NativeReturnStyles | krapper_gen/src/nativeMain/kotlin/com/monkopedia/krapper/generator/model/WrappedMethod.kt:249-250 | `int` is returned by value and `int&` by reference. |
| Methods.ClassReturnStyles | krapper_gen/src/nativeMain/kotlin/com/monkopedia/krapper/generator/model/WrappedMethod.kt:245-246 | A class that is not returnable is returned through an argument cast when it can be assigned and by copy construction otherwise. |
| Methods.ClassNotReturnable | krapper_gen/src/nativeMain/kotlin/com/monkopedia/krapper/generator/model/WrappedMethod.kt:244-245 | A class that is not returnable is neither void nor returnable. |
| Methods.ClassPointerReturnStyles | krapper_gen/src/nativeMain/kotlin/com/monkopedia/krapper/generator/model/WrappedMethod.kt:251-252 | A pointer to such a class travels as `VOIDP`, a reference to it as `VOIDP_REFERENCE`. |
| Methods.ResolvedReturnType | krapper_gen/src/nativeMain/kotlin/com/monkopedia/krapper/generator/model/WrappedMethod.kt:307-309 | The resolved return type is always returnable, and is the mapped type itself when that already is. |
| Methods.PointerReturnable | krapper_gen/src/nativeMain/kotlin/com/monkopedia/krapper/generator/model/WrappedMethod.kt:307-309 | Every pointer type is returnable. |
| Methods.ArgCastNeedsPointer | krapper_gen/src/nativeMain/kotlin/com/monkopedia/krapper/generator/model/WrappedMethod.kt:317-322 | Only an `ARG_CAST` return can need its argument passed as a pointer. |
| Methods.DetermineArgumentCastMode | krapper_gen/src/nativeMain/kotlin/com/monkopedia/krapper/generator/model/WrappedMethod.kt:450-462 | The string cast exactly for strings, the native cast exactly for other native types, the raw cast only for `long double`, and a move only for a `std::unique_ptr` passed by value. |
| Methods.StringCastBeforeNative | krapper_gen/src/nativeMain/kotlin/com/monkopedia/krapper/generator/model/WrappedMethod.kt:456-457 | `std::string` counts as native, yet it is cast as a string. |
| Methods.UniquePtrCast | krapper_gen/src/nativeMain/kotlin/com/monkopedia/krapper/generator/model/WrappedMethod.kt:450-462 | A `unique_ptr` by value is moved; by reference or through a pointer it is reinterpreted. |
| Methods.ResolveArgument | krapper_gen/src/nativeMain/kotlin/com/monkopedia/krapper/generator/model/WrappedMethod.kt:412-439 | A resolved argument keeps the name, USR and default flag; it is dereferenced exactly when its type is neither a pointer, native nor `long double`, and is then passed as a pointer to its type. |
| Methods.NeedsDereference | krapper_gen/src/nativeMain/kotlin/com/monkopedia/krapper/generator/model/WrappedMethod.kt:417 | An argument travels as a pointer exactly when its type is neither a pointer, nor native, nor `long double`. No contract of its own; `Methods.ResolveArgument` states that every resolved argument carries this flag, and `Signatures.ArgReferenceText` how a flagged argument is used. |
| Methods.ResolveArgumentsSpec | krapper_gen/src/nativeMain/kotlin/com/monkopedia/krapper/generator/model/WrappedMethod.kt:348-367 | The resolved list is a prefix of the arguments, each resolved in turn; it stops short only at an argument that fails when all from there on have defaults; it fails exactly when some argument fails with a non-default one at or after it and all before it resolved. |
| Methods.ResolveArgumentsLoop | krapper_gen/src/nativeMain/kotlin/com/monkopedia/krapper/generator/model/WrappedMethod.kt:348-367 | The loop over the arguments returns what the specification of `resolveArguments` says. |
| Methods.ThisArg | krapper_gen/src/nativeMain/kotlin/com/monkopedia/krapper/generator/model/WrappedMethod.kt:73-90 | `thiz` exists exactly when the parent type is known and a pointer to it resolves; it is a reinterpreted pointer to the parent that needs dereferencing. |
| Methods.ThizArgs | krapper_gen/src/nativeMain/kotlin/com/monkopedia/krapper/generator/model/WrappedMethod.kt:293-296 | Static and `sizeof` methods get no leading argument; others get exactly one `thiz`, or fail when it does not resolve. |
| Methods.LocationArg | krapper_gen/src/nativeMain/kotlin/com/monkopedia/krapper/generator/model/WrappedMethod.kt:127-139 | A constructor's leading argument is `location`, a native `void*` passed as is. |
| Naming.CName | krapper_gen/src/nativeMain/kotlin/com/monkopedia/krapper/generator/codegen/NameHandler.kt:67-73 | No contract of its own; `CNameIsIdentifier` and `CNameOfPlain` state that no rewritten character is left and a plain name is kept. |
| Naming.CandidateName | krapper_gen/src/nativeMain/kotlin/com/monkopedia/krapper/generator/codegen/NameHandler.kt:74-97 | No contract of its own; `CandidateSuffixes` states the fixed suffixes and the operator names. |
| Naming.ReplaceDrops | krapper_gen/src/nativeMain/kotlin/com/monkopedia/krapper/generator/codegen/NameHandler.kt:67-73 | Replacing every occurrence of a character by text without it leaves none. |
| Naming.ReplaceKeepsOut | krapper_gen/src/nativeMain/kotlin/com/monkopedia/krapper/generator/codegen/NameHandler.kt:67-73 | A replacement introduces no character that neither the text nor the replacement holds. |
| Naming.CNameIsIdentifier | krapper_gen/src/nativeMain/kotlin/com/monkopedia/krapper/generator/codegen/NameHandler.kt:67-73 | A class's C name never holds `<`, `>`, `,`, `*` or a space. |
| Naming.CNameOfPlain | krapper_gen/src/nativeMain/kotlin/com/monkopedia/krapper/generator/codegen/NameHandler.kt:67-73 | A name with none of the replaced characters is its own C name. |
| Naming.ReplaceSkips | krapper_gen/src/nativeMain/kotlin/com/monkopedia/krapper/generator/codegen/NameHandler.kt:67-73 | `replace` passes over a prefix that cannot start the pattern. |
| Naming.ReplaceAt | krapper_gen/src/nativeMain/kotlin/com/monkopedia/krapper/generator/codegen/NameHandler.kt:67-73 | `replace` substitutes an occurrence at the start and goes on after it. |
| Naming.ReplaceAround | krapper_gen/src/nativeMain/kotlin/com/monkopedia/krapper/generator/codegen/NameHandler.kt:67-73 | `replace` over one occurrence with no earlier one substitutes it in place. |
| Naming.CNameQualified | krapper_gen/src/nativeMain/kotlin/com/monkopedia/krapper/generator/codegen/NameHandler.kt:67-73 | `TestLib::TestClass` becomes `TestLib_TestClass`: each `::` becomes `_`. |
| Naming.TemplateColons | krapper_gen/src/nativeMain/kotlin/com/monkopedia/krapper/generator/codegen/NameHandler.kt:68 | In a template spelling every `::` becomes `_`. |
| Naming.TailColons | krapper_gen/src/nativeMain/kotlin/com/monkopedia/krapper/generator/codegen/NameHandler.kt:68 | The `::` inside a template argument becomes `_`. |
| Naming.NoColonKept | krapper_gen/src/nativeMain/kotlin/com/monkopedia/krapper/generator/codegen/NameHandler.kt:68 | Text without `:` is left alone by the `::` replacement. |
| Naming.TemplateAngles | krapper_gen/src/nativeMain/kotlin/com/monkopedia/krapper/generator/codegen/NameHandler.kt:69 | The opening `<` of a template becomes `_`. |
| Naming.DropLastAngle | krapper_gen/src/nativeMain/kotlin/com/monkopedia/krapper/generator/codegen/NameHandler.kt:71 | The closing `>` is dropped. |
| Naming.CNameTemplate | krapper_gen/src/nativeMain/kotlin/com/monkopedia/krapper/generator/codegen/NameHandler.kt:67-73 | `std::vector<std::string>` becomes `std_vector_std_string`. |
| Naming.CandidateSuffixes | krapper_gen/src/nativeMain/kotlin/com/monkopedia/krapper/generator/codegen/NameHandler.kt:74-97 | Constructors, destructors and `sizeof` get the `_new`, `_dispose` and `_size_of` suffixes whatever their name; an operator gets its operator name; every candidate starts with the class's C name. |
| Naming.PlainMethodName | krapper_gen/src/nativeMain/kotlin/com/monkopedia/krapper/generator/codegen/NameHandler.kt:89-93 | `getPrivateString` gets the candidate `<cName>_get_private_string`. |
| Naming.GetPrivateStringSnake | krapper_gen/src/nativeMain/kotlin/com/monkopedia/krapper/generator/codegen/NameHandler.kt:92-93 | `getPrivateString` becomes `get_private_string`. |
| Naming.GetPrivateStringPieces | krapper_gen/src/nativeMain/kotlin/com/monkopedia/krapper/generator/codegen/NameHandler.kt:92 | `getPrivateString` splits into `get`, `Private`, `String`. |
| Naming.SplitSkip | krapper_gen/src/nativeMain/kotlin/com/monkopedia/krapper/generator/codegen/NameHandler.kt:92 | Positions without a cut are passed over when splitting. |
| Naming.NameHandler.constructor | krapper_gen/src/nativeMain/kotlin/com/monkopedia/krapper/generator/codegen/NameHandler.kt:47-48 | A new handler has taken no name and made no namer. |
| Naming.NameHandler.UniqueNameFor | krapper_gen/src/nativeMain/kotlin/com/monkopedia/krapper/generator/codegen/NameHandler.kt:54-59 | `_` is put in front of the name until it is not taken; the result was free before and is taken afterwards; nothing else changes. |
| Naming.NameHandler.NamerFor | krapper_gen/src/nativeMain/kotlin/com/monkopedia/krapper/generator/codegen/NameHandler.kt:61-63 | A class's namer is made on first use with the class's C name and an empty memo, and the same namer is returned afterwards; no name is taken. |
| Naming.Namer.constructor | krapper_gen/src/nativeMain/kotlin/com/monkopedia/krapper/generator/codegen/NameHandler.kt:65-73 | A namer starts with its handler, the class's C name and an empty memo. |
| Naming.Namer.UniqueCName | krapper_gen/src/nativeMain/kotlin/com/monkopedia/krapper/generator/codegen/NameHandler.kt:74-101 | The first request for a method takes the first free form of its candidate name and remembers it; a later request repeats the remembered name and takes nothing. |
| Naming.Namer.UniqueCGetter | krapper_gen/src/nativeMain/kotlin/com/monkopedia/krapper/generator/codegen/NameHandler.kt:103-106 | `<cName>_<field>_get`, remembered for the field and not made unique. |
| Naming.Namer.UniqueCSetter | krapper_gen/src/nativeMain/kotlin/com/monkopedia/krapper/generator/codegen/NameHandler.kt:107-110 | `<cName>_<field>_set`, remembered under the field's setter object. |
| Naming.Namer.Remember | krapper_gen/src/nativeMain/kotlin/com/monkopedia/krapper/generator/codegen/NameHandler.kt:99-112 | The memo returns what it holds for a key, and otherwise stores and returns the new name. |
| Naming.SameMethodTwice | krapper_gen/src/nativeMain/kotlin/com/monkopedia/krapper/generator/codegen/NameHandler.kt:74-101 | Asking twice for one method's name gives the same name and takes at most one name from the handler. |
| Naming.FourConstructors | krapper_gen/src/nativeMain/kotlin/com/monkopedia/krapper/generator/codegen/NameHandler.kt:54-97 | Four constructors of one class are named `<cName>_new`, `_<cName>_new`, `__<cName>_new`, `___<cName>_new`. |
| MethodResolve.ResolveMethod | krapper_gen/src/nativeMain/kotlin/com/monkopedia/krapper/generator/model/WrappedMethod.kt:298-346 | Resolution fails exactly when the return type, the returned type, the pointer an `ARG_CAST` needs, `thiz` or an argument fails; otherwise the return style, return type and C return type follow the mapped return type, and the arguments are `thiz` (except for static and `sizeof`) followed by the resolved declared arguments. |
| MethodResolve.ResolveConstructor | krapper_gen/src/nativeMain/kotlin/com/monkopedia/krapper/generator/model/WrappedMethod.kt:172-202 | A constructor fails exactly when its return type, an argument or a stack constructor's callback does not resolve; otherwise it returns `void*` and takes `location`, the declared arguments and, on the stack, a trailing callback. |
| MethodResolve.PostArgs | krapper_gen/src/nativeMain/kotlin/com/monkopedia/krapper/generator/model/WrappedMethod.kt:142-170 | A directly allocated constructor takes nothing after its arguments; a stack one takes a reinterpreted `callback`, which needs the class type to resolve. |
| MethodResolve.ResolveDestructor | krapper_gen/src/nativeMain/kotlin/com/monkopedia/krapper/generator/model/WrappedMethod.kt:227-240 | A destructor resolves exactly when its return type and `thiz` do, to a void function of `thiz` alone. |
| Signatures.MethodSignature | krapper_gen/src/nativeMain/kotlin/com/monkopedia/krapper/generator/codegen/Signature.kt:45-67 | The C function is named by the method's unique C name; a constructor returns its C return type, a destructor nothing, other methods their C return type unless the result travels through `ret_value` or is `void`; static methods set no signature. |
| Signatures.RetValueArg | krapper_gen/src/nativeMain/kotlin/com/monkopedia/krapper/generator/codegen/Signature.kt:97-104 | `ret_value` is a reinterpreted argument of the return type, passed as a pointer exactly when the return needs one. |
| Signatures.AddArgs | krapper_gen/src/nativeMain/kotlin/com/monkopedia/krapper/generator/codegen/Signature.kt:92-108 | The signature's arguments are the method's, in order, plus `ret_value` at the end exactly for `ARG_CAST`. |
| Signatures.ResultTravelsOnce | krapper_gen/src/nativeMain/kotlin/com/monkopedia/krapper/generator/codegen/Signature.kt:57-104 | A method's signature has no return type exactly when it returns `void` or has a `ret_value` argument. |
| Signatures.DefineArguments | krapper_gen/src/nativeMain/kotlin/com/monkopedia/krapper/generator/codegen/Signature.kt:105-112 | Each argument is paired, in order, with the local its name was given. |
| Signatures.ArgReferenceText | krapper_gen/src/nativeMain/kotlin/com/monkopedia/krapper/generator/codegen/Signature.kt:77-82 | A moved argument reads `std::move(*(x))`, an argument passed as a pointer `*(x)`, any other its plain name. |
| Signatures.ArgReference | krapper_gen/src/nativeMain/kotlin/com/monkopedia/krapper/generator/codegen/Signature.kt:77-82 | `reference`: a moved argument is `std::move` of the dereferenced local, a flagged argument the dereferenced local, any other the local. No contract of its own; `Signatures.ArgReferenceText` states the text of each case and `ReferenceOfPointer` its relation to `pointerReference`. |
| Signatures.PointerReference | krapper_gen/src/nativeMain/kotlin/com/monkopedia/krapper/generator/codegen/Signature.kt:83-89 | Only an argument passed as a pointer has a pointer reference, its local's name; any other fails. |
| Signatures.ReferenceOfPointer | krapper_gen/src/nativeMain/kotlin/com/monkopedia/krapper/generator/codegen/Signature.kt:77-89 | A dereferenced argument's reference is `*` of its pointer reference. |
| Signatures.FieldGet | krapper_gen/src/nativeMain/kotlin/com/monkopedia/krapper/generator/codegen/Signature.kt:114-134 | A getter is named by its unique C name and always names a return type, `void` exactly when nothing is returned directly; its arguments get `ret_value` at the end for `ARG_CAST`. |
| Signatures.FieldSet | krapper_gen/src/nativeMain/kotlin/com/monkopedia/krapper/generator/codegen/Signature.kt:136-144 | A setter is a void function named by its unique C name, taking the setter's arguments. |
| Signatures.GetterVersusMethod | krapper_gen/src/nativeMain/kotlin/com/monkopedia/krapper/generator/codegen/Signature.kt:57-122 | With no direct result a getter names `void` while a method signature names no return type. |
| CppWriter.ArgumentCast | krapper_gen/src/nativeMain/kotlin/com/monkopedia/krapper/generator/codegen/CppWriter.kt:228-234 | A native argument is used as is; any other gets a fresh local of its signature type, initialised by a `std::string` construction, a raw cast, or a reinterpretation by its cast mode. |
| CppWriter.ArgumentCasts | krapper_gen/src/nativeMain/kotlin/com/monkopedia/krapper/generator/codegen/CppWriter.kt:157-160 | Every argument is cast in order, and one definition is emitted per non-native argument. |
| CppWriter.NativeCount | krapper_gen/src/nativeMain/kotlin/com/monkopedia/krapper/generator/codegen/CppWriter.kt:228-234 | At most every argument is native. |
| CppWriter.References | krapper_gen/src/nativeMain/kotlin/com/monkopedia/krapper/generator/codegen/CppWriter.kt:194-222 | The call arguments are the arguments' references, in order. |
| CppWriter.GenerateReturnAsWritten | krapper_gen/src/nativeMain/kotlin/com/monkopedia/krapper/generator/codegen/CppWriter.kt:236-252 | As written, an `ARG_CAST` without `ret_value` fails, a `RETURN_REFERENCE` emits nothing, and every other style gives what the corrected return gives. |
| CppWriter.GenerateReturn | krapper_gen/src/nativeMain/kotlin/com/monkopedia/krapper/generator/codegen/CppWriter.kt:236-252 | One statement per style: `void` evaluates the call, `ARG_CAST` assigns it to `ret_value` (failing without one), copy construction returns a new copy, every other style returns a value; a reference of a native type returns its address. |
| CppWriter.ReferenceReturnMissing | krapper_gen/src/nativeMain/kotlin/com/monkopedia/krapper/generator/codegen/CppWriter.kt:236-252 | A method returning `int&` gets the C return type `int*`, yet as written its body returns nothing, while the corrected body returns. |
| CppWriter.IntIsNative | krapper_gen/src/nativeMain/kotlin/com/monkopedia/krapper/generator/codegen/CppWriter.kt:236-252 | `int` is a native, non-string type and `int&` is returnable. |
| CppWriter.ToConstructor | krapper_gen/src/nativeMain/kotlin/com/monkopedia/krapper/generator/codegen/CppWriter.kt:254-259 | The constructor name ends in no `*`, unless the spelling started with `const `. |
| CppWriter.ToConstructorOfPointer | krapper_gen/src/nativeMain/kotlin/com/monkopedia/krapper/generator/codegen/CppWriter.kt:254-259 | A pointer to a class, const or not, constructs the class. |
| CppWriter.RemoveTemplate | krapper_gen/src/nativeMain/kotlin/com/monkopedia/krapper/generator/codegen/CppWriter.kt:379-382 | The name up to its first `<`: a prefix without `<`, the whole name when there is none. |
| CppWriter.MethodBody | krapper_gen/src/nativeMain/kotlin/com/monkopedia/krapper/generator/codegen/CppWriter.kt:152-226 | The casts come first, in argument order; a constructor builds the class at `location` from the other arguments, `sizeof` returns the class size, and a destructor, which needs its `thiz` as a pointer, calls the destructor through it. |
| CppWriter.CallAndReturn | krapper_gen/src/nativeMain/kotlin/com/monkopedia/krapper/generator/codegen/CppWriter.kt:161-226 | A constructor, destructor, static operator or method without arguments fails; a method whose `thiz` is not a pointer fails; a static operator needs exactly two arguments. |
| CppWriter.OperatorMethodCall | krapper_gen/src/nativeMain/kotlin/com/monkopedia/krapper/generator/codegen/CppWriter.kt:201-224 | An operator method applies the C++ operator to the dereferenced `thiz` when it allows a direct call, assigns through it for `=` and `+=`, and otherwise calls the operator member by name. |
| CppWriter.AssignTo | krapper_gen/src/nativeMain/kotlin/com/monkopedia/krapper/generator/codegen/CppWriter.kt:210-215 | The two-argument `assign` used for assignment operators. No contract of its own; `CppWriter.OperatorMethodCall` states that `=` assigns through `thiz` and `+=` adds to it. |
| CppWriter.PlainMethodCall | krapper_gen/src/nativeMain/kotlin/com/monkopedia/krapper/generator/codegen/CppWriter.kt:216-223 | A plain method calls the member through `thiz` with the remaining arguments, handed back by its return style. |
| CppWriter.FieldGetBody | krapper_gen/src/nativeMain/kotlin/com/monkopedia/krapper/generator/codegen/CppWriter.kt:352-365 | A getter fails without a `thiz` pointer; otherwise it casts `thiz` first and ends by handing back `thiz->field` by the getter's return style. |
| CppWriter.FieldSetBody | krapper_gen/src/nativeMain/kotlin/com/monkopedia/krapper/generator/codegen/CppWriter.kt:367-376 | A setter fails without arguments, then without a `thiz` pointer, then without a value, and succeeds exactly when it has both; it ends by assigning the value's reference to `thiz->field`. |
| ResolvedTypes.DecapitalizeAll | krapper_gen/src/commonMain/kotlin/resolved_model/ResolvedType.kt:129-132 | Every segment is lowered at its first character, in order. |
| ResolvedTypes.FullyQualified | krapper_gen/src/commonMain/kotlin/resolved_model/ResolvedType.kt:133-138 | A one-segment name is its last segment; otherwise it is the package, `.` and the last segment. |
| ResolvedTypes.Pkg | krapper_gen/src/commonMain/kotlin/resolved_model/ResolvedType.kt:129-132 | A one-segment name has an empty package. |
| ResolvedTypes.Name | krapper_gen/src/commonMain/kotlin/resolved_model/ResolvedType.kt:124-128 | The name starts with the mapped name and ends in `?` when the type is nullable. |
| ResolvedTypes.MappedName | krapper_gen/src/commonMain/kotlin/resolved_model/ResolvedType.kt:120-123 | `mappedName`: the remap's entry for the fully qualified name, else the last segment. No contract of its own; `ResolvedTypes.RemapListed` and `RemapUnlisted` state both cases, and `ResolvedTypes.Name` that every name starts with it. |
| ResolvedTypes.Nullable | krapper_gen/src/commonMain/kotlin/resolved_model/ResolvedType.kt:164-166 | The copy is nullable and unmapped with the same segments, wrapper flag and arguments; for a well-formed type it stays well-formed and its name ends in `?`. |
| ResolvedTypes.TypedWith | krapper_gen/src/commonMain/kotlin/resolved_model/ResolvedType.kt:168-170 | The copy carries the given arguments and no remap and keeps segments and flags; for well-formed parts it is well-formed and its name list starts with the base type's qualified name. |
| ResolvedTypes.FqNames | krapper_gen/src/commonMain/kotlin/resolved_model/ResolvedType.kt:139-140 | The list starts with this type's fully qualified name. |
| ResolvedTypes.FullyQualifiedType | krapper_gen/src/commonMain/kotlin/resolved_model/ResolvedType.kt:172-178 | The segments joined back give the name without its trailing `?`, no segment holds `.`, and the type is nullable exactly when it is a wrapper or the name ended in `?`. |
| ResolvedTypes.SetNameRemap | krapper_gen/src/commonMain/kotlin/resolved_model/ResolvedType.kt:152-157 | The remap is stored here and in every template argument; nothing else changes. |
| ResolvedTypes.Clone | krapper_gen/src/commonMain/kotlin/resolved_model/ResolvedType.kt:148-150 | A clone keeps the name, flags and shape and carries no remap. |
| ResolvedTypes.SplitAfter | krapper_gen/src/commonMain/kotlin/resolved_model/ResolvedType.kt:142-146 | Splitting `a.rest` gives `a` and then the pieces of `rest`. |
| ResolvedTypes.QualifiedTwoSegments | krapper_gen/src/commonMain/kotlin/resolved_model/ResolvedType.kt:120-178 | `ns.Cls` has the segments `ns` and `Cls`, the lowered package `ns`, and the name `Cls`, with `?` for a wrapper. |
| ResolvedTypes.TwoSegmentsSplit | krapper_gen/src/commonMain/kotlin/resolved_model/ResolvedType.kt:142-146 | `ns.Cls` splits into two segments and is nullable exactly for a wrapper. |
| ResolvedTypes.TwoSegmentNames | krapper_gen/src/commonMain/kotlin/resolved_model/ResolvedType.kt:120-138 | A two-segment type's qualified name, package and name. |
| ResolvedTypes.DecapitalizeTestLib | krapper_gen/src/commonMain/kotlin/resolved_model/ResolvedType.kt:129-132 | `TestLib` is lowered to `testLib`. |
| ResolvedTypes.TestLibExample | krapper_gen/src/commonMain/kotlin/resolved_model/ResolvedType.kt:120-178 | `TestLib.EmptyClass` as a wrapper is `testLib.EmptyClass` in package `testLib`, named `EmptyClass?`. |
| ResolvedTypes.InitLowered | krapper_gen/src/commonMain/kotlin/resolved_model/ResolvedType.kt:133-138 | Lowering already lowered segments changes nothing. |
| ResolvedTypes.FullyQualifiedRoundTrip | krapper_gen/src/commonMain/kotlin/resolved_model/ResolvedType.kt:133-178 | `fullyQualified` undoes `fullyQualifiedType` up to the trailing `?` when the package segments are already lowered. |
| ResolvedTypes.FullyQualifiedLowered | krapper_gen/src/commonMain/kotlin/resolved_model/ResolvedType.kt:133-138 | With lowered package segments the fully qualified name is the plain join. |
| ResolvedTypes.NullableName | krapper_gen/src/commonMain/kotlin/resolved_model/ResolvedType.kt:164-166 | The nullable copy shows the last segment; without a remap its name is the old name with `?`, and the qualified name and package stay. |
| ResolvedTypes.NullableSuffix | krapper_gen/src/commonMain/kotlin/resolved_model/ResolvedType.kt:124-128 | The name ends in `?` exactly when the type is nullable. |
| ResolvedTypes.TemplateBrackets | krapper_gen/src/commonMain/kotlin/resolved_model/ResolvedType.kt:124-128 | The name shows `<` exactly when there are template arguments. |
| ResolvedTypes.TypedWithName | krapper_gen/src/commonMain/kotlin/resolved_model/ResolvedType.kt:168-170 | `typedWith` keeps the qualified name and shows the last segment with the argument's name in angle brackets. |
| ResolvedTypes.NameOneTemplate | krapper_gen/src/commonMain/kotlin/resolved_model/ResolvedType.kt:124-128 | With one template argument the name is the mapped name and the argument's name in angle brackets. |
| ResolvedTypes.RemapListed | krapper_gen/src/commonMain/kotlin/resolved_model/ResolvedType.kt:120-157 | A remap that lists the type's fully qualified name replaces its displayed name. |
| ResolvedTypes.RemapUnlisted | krapper_gen/src/commonMain/kotlin/resolved_model/ResolvedType.kt:120-157 | A remap listing none of the tree's names shows what a fresh clone shows. |
| ResolvedTypes.CloneForgetsRemap | krapper_gen/src/commonMain/kotlin/resolved_model/ResolvedType.kt:148-157 | Cloning a remapped type is cloning the type itself. |
| KotlinNames.FixNaming | krapper_gen/src/nativeMain/kotlin/com/monkopedia/krapper/generator/codegen/KotlinWriter.kt:518-524 | No contract of its own; `FixNamingSpec` states that exactly the infix names gain `_method` and the result is never an infix name. |
| KotlinNames.KotlinMethodName | krapper_gen/src/nativeMain/kotlin/com/monkopedia/krapper/generator/codegen/KotlinWriter.kt:526-537 | No contract of its own; `KotlinMethodNameIsIdentifier` states that no spelled-out symbol is left and `PlainKotlinMethodName` that a symbol-free name is kept. |
| KotlinNames.NoUnderscoreInfix | krapper_gen/src/nativeMain/kotlin/com/monkopedia/krapper/generator/codegen/KotlinWriter.kt:500-516 | No infix wrapper name holds `_`. |
| KotlinNames.FixNamingSpec | krapper_gen/src/nativeMain/kotlin/com/monkopedia/krapper/generator/codegen/KotlinWriter.kt:518-524 | Exactly the infix names are renamed, to the name with `_method` appended, and the new name is never an infix name. |
| KotlinNames.InfixOperatorsListed | krapper_gen/src/nativeMain/kotlin/com/monkopedia/krapper/generator/codegen/KotlinWriter.kt:500-516 | Every infix wrapper of the operator table is in the list. |
| KotlinNames.ListedInfixOperators | krapper_gen/src/nativeMain/kotlin/com/monkopedia/krapper/generator/codegen/KotlinWriter.kt:500-516 | Every name of the list is an infix wrapper of the operator table. |
| KotlinNames.ComparisonsListed | krapper_gen/src/nativeMain/kotlin/com/monkopedia/krapper/generator/codegen/KotlinWriter.kt:503-508 | The comparison names are infix wrappers of the table. |
| KotlinNames.BitwiseListed | krapper_gen/src/nativeMain/kotlin/com/monkopedia/krapper/generator/codegen/KotlinWriter.kt:509-515 | The logical and bitwise names are infix wrappers of the table. |
| KotlinNames.AssignmentsListed | krapper_gen/src/nativeMain/kotlin/com/monkopedia/krapper/generator/codegen/KotlinWriter.kt:501-502 | `assign` and `plusEquals` are infix wrappers of the table. |
| KotlinNames.RespellKeepsOut | krapper_gen/src/nativeMain/kotlin/com/monkopedia/krapper/generator/codegen/KotlinWriter.kt:526-537 | A character absent from the name and from every replacement stays out. |
| KotlinNames.RespellDrops | krapper_gen/src/nativeMain/kotlin/com/monkopedia/krapper/generator/codegen/KotlinWriter.kt:526-537 | A character one rule replaces, and no later replacement brings back, is gone. |
| KotlinNames.RespellPlain | krapper_gen/src/nativeMain/kotlin/com/monkopedia/krapper/generator/codegen/KotlinWriter.kt:526-537 | A name holding no rule's first character is kept. |
| KotlinNames.RenamesSpelling | krapper_gen/src/nativeMain/kotlin/com/monkopedia/krapper/generator/codegen/KotlinWriter.kt:526-537 | The twelve replacements of `kotlinMethodName` together remove every symbol character. |
| KotlinNames.RenamesPlain | krapper_gen/src/nativeMain/kotlin/com/monkopedia/krapper/generator/codegen/KotlinWriter.kt:526-537 | There are twelve replacements and none brings back a symbol character. |
| KotlinNames.RenamesFirst | krapper_gen/src/nativeMain/kotlin/com/monkopedia/krapper/generator/codegen/KotlinWriter.kt:526-537 | Every pattern starts with a symbol character, and the four before `==` do not start with `=`. |
| KotlinNames.SpellingRemovesSymbols | krapper_gen/src/nativeMain/kotlin/com/monkopedia/krapper/generator/codegen/KotlinWriter.kt:526-537 | Respelling by such rules leaves no symbol character. |
| KotlinNames.KotlinMethodNameIsIdentifier | krapper_gen/src/nativeMain/kotlin/com/monkopedia/krapper/generator/codegen/KotlinWriter.kt:526-537 | A Kotlin method name holds none of the symbol characters. |
| KotlinNames.PlainKotlinMethodName | krapper_gen/src/nativeMain/kotlin/com/monkopedia/krapper/generator/codegen/KotlinWriter.kt:526-537 | A name without symbol characters is kept. |
| KotlinNames.RespellSuffixPlain | krapper_gen/src/nativeMain/kotlin/com/monkopedia/krapper/generator/codegen/KotlinWriter.kt:526-537 | Later rules leave a name holding none of their first characters. |
| KotlinNames.RespellUnfold | krapper_gen/src/nativeMain/kotlin/com/monkopedia/krapper/generator/codegen/KotlinWriter.kt:526-537 | Respelling applies one rule and then the rest. |
| KotlinNames.SpellingDouble | krapper_gen/src/nativeMain/kotlin/com/monkopedia/krapper/generator/codegen/KotlinWriter.kt:530 | `==` between plain text becomes `_cmd`. |
| KotlinNames.SingleNotDouble | krapper_gen/src/nativeMain/kotlin/com/monkopedia/krapper/generator/codegen/KotlinWriter.kt:530 | A lone `=` is not an `==`. |
| KotlinNames.SpellingSingle | krapper_gen/src/nativeMain/kotlin/com/monkopedia/krapper/generator/codegen/KotlinWriter.kt:531 | A lone `=` becomes `_eq`. |
| KotlinNames.EqualsSpelling | krapper_gen/src/nativeMain/kotlin/com/monkopedia/krapper/generator/codegen/KotlinWriter.kt:526-537 | `==` is spelled `_cmd`, not `_eq_eq`, and a lone `=` `_eq`. |
| KotlinNames.RespellPrefix | krapper_gen/src/nativeMain/kotlin/com/monkopedia/krapper/generator/codegen/KotlinWriter.kt:526-537 | Earlier rules leave a name holding none of their first characters. |
| KotlinNames.LettersPlain | krapper_gen/src/nativeMain/kotlin/com/monkopedia/krapper/generator/codegen/KotlinWriter.kt:526-537 | A name of letters holds no symbol. |
| KotlinNames.InfixLetters | krapper_gen/src/nativeMain/kotlin/com/monkopedia/krapper/generator/codegen/KotlinWriter.kt:500-516 | Every infix name is made of letters. |
| KotlinNames.InfixNamesPlain | krapper_gen/src/nativeMain/kotlin/com/monkopedia/krapper/generator/codegen/KotlinWriter.kt:500-524 | No infix name with `_method` appended holds a symbol. |
| KotlinNames.InfixMethodName | krapper_gen/src/nativeMain/kotlin/com/monkopedia/krapper/generator/codegen/KotlinWriter.kt:518-537 | A plain method named like an infix wrapper is emitted as the name with `_method` appended. |
| KotlinNames.PostIncrementPlain | krapper_gen/src/nativeMain/kotlin/com/monkopedia/krapper/generator/codegen/KotlinWriter.kt:526-537 | `postIncrement` holds no symbol. |
| KotlinNames.PostIncrementName | krapper_gen/src/nativeMain/kotlin/com/monkopedia/krapper/generator/codegen/KotlinWriter.kt:526-537 | `postIncrement` keeps its name. |
| KotlinWriter.ReferenceText | krapper_gen/src/nativeMain/kotlin/com/monkopedia/krapper/generator/codegen/KotlinWriter.kt:655-669 | A wrapper argument reads `v.ptr`, or `v?.ptr` when nullable; anything else, or a variable of unknown type, is the variable itself. |
| KotlinWriter.Reference | krapper_gen/src/nativeMain/kotlin/com/monkopedia/krapper/generator/codegen/KotlinWriter.kt:661-669 | `reference(type, v)`. No contract of its own; `KotlinWriter.ReferenceText` states its text: `v.ptr` or `v?.ptr` for a wrapper, the variable itself otherwise. |
| KotlinWriter.WrapperName | krapper_gen/src/nativeMain/kotlin/com/monkopedia/krapper/generator/codegen/KotlinWriter.kt:729-732 | The name `constructorMethod` extends: a prefix of the type's name that does not end in `?` (`trimEnd('?')`). |
| KotlinWriter.GenerateReturn | krapper_gen/src/nativeMain/kotlin/com/monkopedia/krapper/generator/codegen/KotlinWriter.kt:697-719 | A wrapper is constructed from the call, with `?: return null` when nullable and an assertion otherwise; a Kotlin string is copied out of the C buffer, which is freed, in four statements; anything else is returned as it is. |
| KotlinWriter.MethodBody | krapper_gen/src/nativeMain/kotlin/com/monkopedia/krapper/generator/codegen/KotlinWriter.kt:568-603 | An `ARG_CAST` of a wrapper allocates a holder, passes its pointer after the arguments and returns the holder; otherwise the C call's result is handed to `generateReturn`. |
| KotlinWriter.References | krapper_gen/src/nativeMain/kotlin/com/monkopedia/krapper/generator/codegen/KotlinWriter.kt:655-669 | The parameters are passed by their references, in order. |
| KotlinWriter.GenerateBasicMethod | krapper_gen/src/nativeMain/kotlin/com/monkopedia/krapper/generator/codegen/KotlinWriter.kt:539-566 | The function is named by the respelled method name, takes the declared arguments after `thiz`, returns the method's Kotlin type, and calls the C function with the start arguments and then those parameters. |
| KotlinWriter.GenerateOperator | krapper_gen/src/nativeMain/kotlin/com/monkopedia/krapper/generator/codegen/KotlinWriter.kt:605-653 | An operator wrapper is named by the operator's Kotlin name with the modifier its kind calls for; a dummy-argument operator takes no parameter and passes `ptr, 0`, the others pass `ptr` and their declared arguments. |
| KotlinWriter.StaticMethod | krapper_gen/src/nativeMain/kotlin/com/monkopedia/krapper/generator/codegen/KotlinWriter.kt:311-337 | A static method becomes a `MemScope` extension taking every declared argument, with no `ptr`. |
| KotlinWriter.GenerateMethod | krapper_gen/src/nativeMain/kotlin/com/monkopedia/krapper/generator/codegen/KotlinWriter.kt:339-364 | Destructors and `sizeof` generate nothing, constructors a constructor wrapper, static methods a `MemScope` extension, operators their operator wrapper, and other methods a plain function renamed by `fixNaming`. |
| KotlinWriter.InfixNamedMethod | krapper_gen/src/nativeMain/kotlin/com/monkopedia/krapper/generator/codegen/KotlinWriter.kt:352-362 | A plain method named like an infix wrapper is generated as the name with `_method` appended. |
| KotlinWriter.PostIncrementWrapper | krapper_gen/src/nativeMain/kotlin/com/monkopedia/krapper/generator/codegen/KotlinWriter.kt:352-362 | A post-increment method returning a wrapper becomes `postIncrement()` calling `<cName>(ptr, 0, retValue.ptr)`. |
| KotlinWriter.PostIncrementOperator | krapper_gen/src/nativeMain/kotlin/com/monkopedia/krapper/generator/codegen/KotlinWriter.kt:633-642 | The post-increment wrapper is a plain function without parameters whose body is the holder body. |
| KotlinWriter.PostIncrementArgCast | krapper_gen/src/nativeMain/kotlin/com/monkopedia/krapper/generator/codegen/KotlinWriter.kt:568-603 | The holder body with `ptr, 0` is the post-increment body. |
| KotlinWriter.PostIncrementShape | krapper_gen/src/nativeMain/kotlin/com/monkopedia/krapper/generator/codegen/KotlinWriter.kt:633-642 | `postIncrement` is a plain function without parameters that passes `ptr` and `0` first. |
| KotlinWriter.ArgCastNonNullWrapper | krapper_gen/src/nativeMain/kotlin/com/monkopedia/krapper/generator/codegen/KotlinWriter.kt:575-594 | An `ARG_CAST` of a non-nullable wrapper passes the holder as `retValue.ptr` after the other arguments. |
| KotlinWriter.PostIncrementCallText | krapper_gen/src/nativeMain/kotlin/com/monkopedia/krapper/generator/codegen/KotlinWriter.kt:590-593 | The call reads `<cName>(ptr, 0, retValue.ptr)`. |
| KotlinWriter.GenerateField | krapper_gen/src/nativeMain/kotlin/com/monkopedia/krapper/generator/codegen/KotlinWriter.kt:671-695 | A field becomes a property of its Kotlin type whose getter is the method body over `ptr`, with a setter exactly when the field is not const, calling the C setter with `ptr` and the value's reference. |
| TypeResolver.WrapOnReplace | krapper_gen/src/nativeMain/kotlin/com/monkopedia/krapper/generator/Resolver.kt:366-374 | A replacement stays a replacement, wrapped; removal and no change pass through. |
| TypeResolver.WrapCommutes | krapper_gen/src/nativeMain/kotlin/com/monkopedia/krapper/generator/Resolver.kt:366-374 | Wrapping a result stands for wrapping the type it stands for. |
| TypeResolver.HandleTemplate | krapper_gen/src/nativeMain/kotlin/com/monkopedia/krapper/generator/Resolver.kt:350-364 | A template is never reported unchanged: it is removed, replaced by the rebuilt template, or replaced as the handler says. |
| TypeResolver.ModifierKept | krapper_gen/src/nativeMain/kotlin/com/monkopedia/krapper/generator/Resolver.kt:323-327 | A modified type maps exactly when its base does, to the mapped base with the same modifier. |
| TypeResolver.PrefixKept | krapper_gen/src/nativeMain/kotlin/com/monkopedia/krapper/generator/Resolver.kt:328-332 | A prefixed type maps exactly when its base does, to the mapped base with the same prefix. |
| TypeResolver.MapArgsRemoved | krapper_gen/src/nativeMain/kotlin/com/monkopedia/krapper/generator/Resolver.kt:351-357 | An argument that is removed, after arguments that are all kept, removes the whole argument list. |
| TypeResolver.TemplateArgRemoved | krapper_gen/src/nativeMain/kotlin/com/monkopedia/krapper/generator/Resolver.kt:351-357 | ...and so the template, whatever the handler says of it. |
| TypeResolver.WeightsBelow | krapper_gen/src/nativeMain/kotlin/com/monkopedia/krapper/generator/Resolver.kt:351-357 | Every argument of a template is smaller than the argument list. |
| TypeResolver.KeptTypeUnchanged | krapper_gen/src/nativeMain/kotlin/com/monkopedia/krapper/generator/Resolver.kt:320-364 | A type whose every leaf the handler keeps is left unchanged or replaced by an equal type; a leaf is left unchanged. |
| TypeResolver.KeptArgsUnchanged | krapper_gen/src/nativeMain/kotlin/com/monkopedia/krapper/generator/Resolver.kt:351-357 | Arguments that are all kept map to themselves. |
| TypeResolver.NoRemoval | krapper_gen/src/nativeMain/kotlin/com/monkopedia/krapper/generator/Resolver.kt:320-364 | A handler that never removes makes no type removed. |
| TypeResolver.NoArgRemoval | krapper_gen/src/nativeMain/kotlin/com/monkopedia/krapper/generator/Resolver.kt:351-357 | A handler that never removes keeps every argument list. |
| TypeResolver.LeafDecision | krapper_gen/src/nativeMain/kotlin/com/monkopedia/krapper/generator/Resolver.kt:249-279 | A resolvable leaf is unchanged; an unresolvable one is removed under `IGNORE_MISSING`, replaced by `void*` under `OPAQUE_MISSING`, and throws under `THROW_MISSING`. |
| TypeResolver.OpaqueAndThrowKeep | krapper_gen/src/nativeMain/kotlin/com/monkopedia/krapper/generator/Resolver.kt:262-279 | With `OPAQUE_MISSING` or `THROW_MISSING` nothing is removed. |
| TypeResolver.UnresolvableArgument | krapper_gen/src/nativeMain/kotlin/com/monkopedia/krapper/generator/Resolver.kt:253-279 | An unresolvable template argument makes `THROW_MISSING` throw and `IGNORE_MISSING` remove the template. |
| TypeResolver.ResolvableUnchanged | krapper_gen/src/nativeMain/kotlin/com/monkopedia/krapper/generator/Resolver.kt:249-279 | When every part resolves, every policy gives the type back. |
| TypeResolver.KeptApply | krapper_gen/src/nativeMain/kotlin/com/monkopedia/krapper/generator/Resolver.kt:320-364 | For any handler that keeps every leaf, the result stands for the type itself. |
| TypeResolver.OperateOn | krapper_gen/src/nativeMain/kotlin/com/monkopedia/krapper/generator/Resolver.kt:320-348 | `operateOn`: modifiers, prefixes and arrays are mapped through their component and re-wrapped, templates through `handleTemplate`, other types by the handler; `TypeResolver.ModifierKept`, `TypeResolver.PrefixKept` and `TypeResolver.KeptTypeUnchanged` state it. |
| TypeResolver.MapArgs | krapper_gen/src/nativeMain/kotlin/com/monkopedia/krapper/generator/Resolver.kt:351-357 | When no argument is removed, every argument is mapped and the list keeps its length; the first removal or failure ends the mapping. |
| TypeResolver.PolicyHandler | krapper_gen/src/nativeMain/kotlin/com/monkopedia/krapper/generator/Resolver.kt:249-279 | The leaf handler of a reference policy: the policy's decision (`TypeResolver.LeafDecision`) on whether the leaf resolves. |
| TypeResolver.TypeMapping | krapper_gen/src/nativeMain/kotlin/com/monkopedia/krapper/generator/Resolver.kt:249-279 | A policy's mapping is `operateOn` with that policy's handler; `TypeResolver.OpaqueAndThrowKeep` and `TypeResolver.ResolvableUnchanged` state what each policy gives. |
| ResolveState.MapSpec | krapper_gen/src/nativeMain/kotlin/com/monkopedia/krapper/generator/Resolver.kt:141-152 | An array never maps; otherwise the mapping's answer is applied: unchanged gives the type, removal gives none, a replacement gives the replacement, and a thrown exception comes through. |
| ResolveState.MapResolvable | krapper_gen/src/nativeMain/kotlin/com/monkopedia/krapper/generator/Resolver.kt:141-152 | Under a reference policy, a non-array type whose parts all resolve maps to itself. |
| ResolveState.UnresolvableNotNative | krapper_gen/src/nativeMain/kotlin/com/monkopedia/krapper/generator/Resolver.kt:63-70 | The unresolvable marker is not a native type, so it is refused before the native test. |
| ResolveState.ResolveContext.constructor | krapper_gen/src/nativeMain/kotlin/com/monkopedia/krapper/generator/Resolver.kt:133-140 | A new context holds the mapping and an empty cache. |
| ResolveState.ResolveContext.Map | krapper_gen/src/nativeMain/kotlin/com/monkopedia/krapper/generator/Resolver.kt:141-152 | For a mapping that does not touch the tracker, `map` answers as its specification says whatever the cache holds; it stores a mapping's answer on first use and stores nothing for an array, a cached type, or a mapping that throws. |
| ResolveState.ResolveTracker.constructor | krapper_gen/src/nativeMain/kotlin/com/monkopedia/krapper/generator/Resolver.kt:61-62 | A new tracker knows the wrapped classes and has resolved nothing. |
| ResolveState.ResolveTracker.CanResolveName | krapper_gen/src/nativeMain/kotlin/com/monkopedia/krapper/generator/Resolver.kt:76-99 | A recorded class answers by being non-empty; a name under resolution resolves; an unknown or empty class does not; otherwise the class is resolved (by a resolution that depends only on the name) and the answer recorded, or the answer is no when that fails; the set of names under resolution is restored. |
| ResolveState.ResolveTracker.CanResolve | krapper_gen/src/nativeMain/kotlin/com/monkopedia/krapper/generator/Resolver.kt:63-75 | The unresolvable marker never resolves; a name under resolution, a native type, `void` and `long double` do; a modified type resolves when its base does; answers already recorded never change. |
| Filters.Matches | krapper_gen/src/nativeMain/kotlin/com/monkopedia/krapper/generator/Parsing.kt:231-251 | A missing string (a selector that does not apply to the element) never matches. |
| Filters.NullNeverMatches | krapper_gen/src/nativeMain/kotlin/com/monkopedia/krapper/generator/Parsing.kt:231-232 | Whatever the matcher, a null input is rejected. |
| Filters.DefaultIsPlain | krapper_gen/src/nativeMain/kotlin/com/monkopedia/krapper/generator/Parsing.kt:127-129 | The filter `defaultFilter()` builds contains no `DefaultFilter`, so expanding the default once cannot loop. |
| Filters.ParentOfRoot | krapper_gen/src/nativeMain/kotlin/com/monkopedia/krapper/generator/Parsing.kt:132-134 | A parent filter is false on an element that has no parent. |
| Filters.ChildlessElement | krapper_gen/src/nativeMain/kotlin/com/monkopedia/krapper/generator/Parsing.kt:138-143 | On an element without children, "all children" holds and "any child" does not. |
| Filters.Connectives | krapper_gen/src/nativeMain/kotlin/com/monkopedia/krapper/generator/Parsing.kt:109-125 | `Not` negates; an empty `And` holds and an empty `Or` does not. |
| Filters.WrapMeaning | krapper_gen/src/commonMain/kotlin/FilterDsl.kt:30-43 | Wrapping for `thiz` leaves the filter as it is; the other targets test the parent (false without one), the base, some child, or every child. |
| Filters.And | krapper_gen/src/commonMain/kotlin/FilterDsl.kt:81-85 | `and` builds an `AndFilter` whose operands are the conjuncts of both sides spliced together. |
| Filters.Or | krapper_gen/src/commonMain/kotlin/FilterDsl.kt:87-91 | `or` builds an `OrFilter` from the disjuncts of both sides spliced together. |
| Filters.StringBuildersMeaning | krapper_gen/src/commonMain/kotlin/FilterDsl.kt:93-111 | `eq`, `contains`, `startsWith`, `endsWith` and `regex` hold exactly when the selected string exists and compares as the builder's name says. |
| Filters.AndPartsMeaning | krapper_gen/src/commonMain/kotlin/FilterDsl.kt:82-83 | The list of conjuncts a filter contributes to `and` all hold exactly when the filter does. |
| Filters.OrPartsMeaning | krapper_gen/src/commonMain/kotlin/FilterDsl.kt:88-89 | Some disjunct a filter contributes to `or` holds exactly when the filter does. |
| Filters.AndMeaning | krapper_gen/src/commonMain/kotlin/FilterDsl.kt:75-85 | Splicing keeps the meaning: `a and b` (and `a + b`) holds iff both `a` and `b` hold. |
| Filters.OrMeaning | krapper_gen/src/commonMain/kotlin/FilterDsl.kt:87-91 | `a or b` holds iff `a` or `b` holds. |
| Filters.AndAssociative | krapper_gen/src/commonMain/kotlin/FilterDsl.kt:81-85 | Chained `and`s produce the same flat filter whichever way they are grouped. |
| Filters.DefaultBuiltByDsl | krapper_gen/src/nativeMain/kotlin/com/monkopedia/krapper/generator/Parsing.kt:276-290 | The default filter constant is exactly what the `defaultFilter()` builder expression produces. |
| Filters.ClassBranch | krapper_gen/src/nativeMain/kotlin/com/monkopedia/krapper/generator/Parsing.kt:278-282 | On a class, the class half of the default filter holds iff the qualified name starts neither with `std::` nor with `__`. |
| Filters.MethodBranch | krapper_gen/src/nativeMain/kotlin/com/monkopedia/krapper/generator/Parsing.kt:283-288 | The method half of the default filter never holds on an element that is not a method. |
| Filters.DefaultOnClass | krapper_gen/src/nativeMain/kotlin/com/monkopedia/krapper/generator/Parsing.kt:276-290 | On a class, `DefaultFilter` passes exactly the classes whose qualified name starts neither with `std::` nor with `__`. |
| Filters.DefaultOnOthers | krapper_gen/src/nativeMain/kotlin/com/monkopedia/krapper/generator/Parsing.kt:276-290 | An element that is neither a class nor a method never passes `DefaultFilter`. |
| Filters.Eval | krapper_gen/src/nativeMain/kotlin/com/monkopedia/krapper/generator/Parsing.kt:107-167 | The filter as a test on an element, one case per filter kind; `Filters.Connectives`, `Filters.ParentOfRoot`, `Filters.ChildlessElement` and the meaning lemmas state its cases. |
| Filters.Select | krapper_gen/src/nativeMain/kotlin/com/monkopedia/krapper/generator/Parsing.kt:252-262 | `StringSelector.select`: the selected string of an element, absent when the selector does not apply to its kind. No contract of its own; `Filters.NullNeverMatches` states that an absent string never matches and `StringBuildersMeaning` how a present one is tested. |
| Filters.EvalDefault | krapper_gen/src/nativeMain/kotlin/com/monkopedia/krapper/generator/Parsing.kt:127-129 | `DefaultFilter` evaluates the filter `defaultFilter()` builds. No contract of its own; `Filters.DefaultOnClass` and `DefaultOnOthers` state its meaning. |
| Filters.Wrap | krapper_gen/src/commonMain/kotlin/FilterDsl.kt:30-43 | `ElementTarget.wrap`; `Filters.WrapMeaning` states what the wrapped filter tests for each target. |
| Filters.Not | krapper_gen/src/commonMain/kotlin/FilterDsl.kt:71-73 | `!filter` is a `NotFilter`; `Filters.Connectives` proves that it negates. |
| Filters.Plus | krapper_gen/src/commonMain/kotlin/FilterDsl.kt:75 | `a + b` is `a and b`; `Filters.AndMeaning` proves that it holds exactly when both hold. |
| Filters.Eq | krapper_gen/src/commonMain/kotlin/FilterDsl.kt:93-95 | `eq` tests the selected string for equality; `Filters.StringBuildersMeaning` states it with the other string builders. |
| Filters.IsType | krapper_gen/src/commonMain/kotlin/FilterDsl.kt:77-79 | `isType`: a type filter wrapped for the target. No contract of its own; `Filters.IsTypeMeaning` states its meaning. |
| Filters.IsTypeMeaning | krapper_gen/src/commonMain/kotlin/FilterDsl.kt:77-79 | On the element itself, `isType` holds exactly for an element of that type; on any other target it tests the type through the target, as `Filters.WrapMeaning` states. |
| Filters.ContainsText | krapper_gen/src/commonMain/kotlin/FilterDsl.kt:97-99 | `contains`. No contract of its own; `Filters.StringBuildersMeaning` states that it holds exactly when the selected string exists and contains the text. |
| Filters.StartsWithText | krapper_gen/src/commonMain/kotlin/FilterDsl.kt:101-103 | `startsWith`. No contract of its own; `Filters.StringBuildersMeaning` states its meaning. |
| Filters.EndsWithText | krapper_gen/src/commonMain/kotlin/FilterDsl.kt:105-107 | `endsWith`. No contract of its own; `Filters.StringBuildersMeaning` states its meaning. |
| Filters.RegexText | krapper_gen/src/commonMain/kotlin/FilterDsl.kt:109-111 | `regex`. No contract of its own; `Filters.StringBuildersMeaning` states that it holds exactly when the selected string exists and the matcher accepts it. |
| ElementTrees.Filter | krapper_gen/src/nativeMain/kotlin/com/monkopedia/krapper/generator/model/WrappedElement.kt:245-256 | The filtered list is never longer than the list. |
| ElementTrees.Link | krapper_gen/src/commonMain/kotlin/resolved_model/ResolvedElement.kt:68-73 | No contract of its own; `SetParents` computes it, and `LinkFrame`, `LinksNameContainers` and `LinkChildLink` state which links it writes. |
| ElementTrees.Clone | krapper_gen/src/commonMain/kotlin/resolved_model/ResolvedElement.kt:36-40 | The copy is numbered `next`, keeps the data and the number of children, and the next free number is past it. |
| ElementTrees.CloneAll | krapper_gen/src/nativeMain/kotlin/com/monkopedia/krapper/generator/model/WrappedElement.kt:258-264 | One copy per child, and the next free number never goes back. |
| ElementTrees.PreorderOf | krapper_gen/src/commonMain/kotlin/resolved_model/ResolvedElement.kt:82-87 | `emitRecursive` yields the element itself first, then the walks of its children. |
| ElementTrees.PreorderAppend | krapper_gen/src/commonMain/kotlin/resolved_model/ResolvedElement.kt:76-80 | `recursiveSequence` over a concatenation of collections is the concatenation of their sequences. |
| ElementTrees.PreorderLength | krapper_gen/src/commonMain/kotlin/resolved_model/ResolvedElement.kt:76-87 | The recursive sequence of a forest has exactly as many entries as the forest has elements. |
| ElementTrees.PreorderOfLength | krapper_gen/src/commonMain/kotlin/resolved_model/ResolvedElement.kt:82-87 | The walk of one element has as many entries as its subtree has elements. |
| ElementTrees.ChildWalkPosition | krapper_gen/src/commonMain/kotlin/resolved_model/ResolvedElement.kt:82-87 | The walk of child `k` appears as one contiguous slice of the parent's walk, right after the parent and the walks of the earlier children. |
| ElementTrees.FilterMembers | krapper_gen/src/nativeMain/kotlin/com/monkopedia/krapper/generator/model/WrappedElement.kt:245-256 | The filtered list holds exactly the walked elements that pass the predicate. |
| ElementTrees.FilterAppend | krapper_gen/src/nativeMain/kotlin/com/monkopedia/krapper/generator/model/WrappedElement.kt:249-254 | Filtering a concatenated walk is filtering each part in turn. |
| ElementTrees.ForEachRecursive | krapper_gen/src/nativeMain/kotlin/com/monkopedia/krapper/generator/model/WrappedElement.kt:238-243 | The callback sees every element below the root (not the root), each child before its own descendants, in walk order. |
| ElementTrees.FilterRecursive | krapper_gen/src/nativeMain/kotlin/com/monkopedia/krapper/generator/model/WrappedElement.kt:245-256 | `filterRecursive` appends to `ret` exactly the descendants that pass the predicate, in walk order, and keeps what `ret` already held. |
| ElementTrees.FilterStep | krapper_gen/src/nativeMain/kotlin/com/monkopedia/krapper/generator/model/WrappedElement.kt:249-254 | One turn of the loop adds the child (if it passes) and then the passing elements of the child's own walk. |
| ElementTrees.VisitedOnce | krapper_gen/src/nativeMain/kotlin/com/monkopedia/krapper/generator/model/WrappedElement.kt:238-243 | When identities are distinct, `forEachRecursive` hands no element to the callback twice. |
| ElementTrees.SetParents | krapper_gen/src/commonMain/kotlin/resolved_model/ResolvedElement.kt:68-73 | `setParents` writes, for every element below the root, the identity of the element that contains it. |
| ElementTrees.LinkFrame | krapper_gen/src/commonMain/kotlin/resolved_model/ResolvedElement.kt:68-73 | `setParents` writes only the parent links of elements below the root; all other links are kept. |
| ElementTrees.LinksNameContainers | krapper_gen/src/commonMain/kotlin/resolved_model/ResolvedElement.kt:68-73 | With distinct identities, after `setParents` every element's parent link names the element whose children list holds it. |
| ElementTrees.LinkChildLink | krapper_gen/src/commonMain/kotlin/resolved_model/ResolvedElement.kt:69-71 | Each direct child ends up linked to the root, and the walks of later children do not overwrite that link. |
| ElementTrees.LaterChildrenKeep | krapper_gen/src/commonMain/kotlin/resolved_model/ResolvedElement.kt:69-72 | The walks of later children never write a link belonging to an element in an earlier child's walk. |
| ElementTrees.ChildInWalk | krapper_gen/src/commonMain/kotlin/resolved_model/ResolvedElement.kt:82-87 | A child of any element in the walk is itself in the walk. |
| ElementTrees.DisjointChildren | krapper_gen/src/commonMain/kotlin/resolved_model/ResolvedElement.kt:82-87 | With distinct identities, no identity in one child's walk appears in a later child's walk. |
| ElementTrees.IdNotBelowItself | krapper_gen/src/commonMain/kotlin/resolved_model/ResolvedElement.kt:82-87 | With distinct identities, a child's identity does not reappear below it. |
| ElementTrees.UniqueSub | krapper_gen/src/commonMain/kotlin/resolved_model/ResolvedElement.kt:82-87 | A subtree of a tree with distinct identities has distinct identities. |
| ElementTrees.ChildHolding | krapper_gen/src/commonMain/kotlin/resolved_model/ResolvedElement.kt:76-80 | Every element of a forest's walk lies in the walk of one of the forest's trees. |
| ElementTrees.CloneShape | krapper_gen/src/commonMain/kotlin/resolved_model/ResolvedElement.kt:36-40 | `clone` rebuilds the same shape out of fresh elements: the copy's identities are exactly the next `Size(t)` unused ones, all distinct. |
| ElementTrees.CloneAllShape | krapper_gen/src/nativeMain/kotlin/com/monkopedia/krapper/generator/model/WrappedElement.kt:258-264 | Cloning a list of children keeps every shape, and the copies' identities are fresh, consecutive and distinct. |
| ResolvedElements.FirstWithKey | krapper_gen/src/commonMain/kotlin/resolved_model/ResolvedElement.kt:64-66 | The position `remove` looks for: the first child equal to the argument, with no equal child before it, or the list's length when there is none. |
| ResolvedElements.RemoveFirst | krapper_gen/src/commonMain/kotlin/resolved_model/ResolvedElement.kt:64-66 | Removing drops exactly the first equal child and keeps the rest in order; a list without the child is unchanged. |
| ResolvedElements.ResolvedElement.constructor | krapper_gen/src/commonMain/kotlin/resolved_model/ResolvedElement.kt:22-30 | A new element has no children, no parent and no cached answer. |
| ResolvedElements.ResolvedElement.AddChild | krapper_gen/src/commonMain/kotlin/resolved_model/ResolvedElement.kt:56-62 | A child already present is refused with `IllegalArgument` and nothing changes; otherwise it is appended and its parent set to this element; a class drops its cached answer (ResolvedClass.kt:67-70). |
| ResolvedElements.ResolvedElement.AddAllChildren | krapper_gen/src/commonMain/kotlin/resolved_model/ResolvedElement.kt:44-54 | If any element of the list is already a child the call fails before changing anything; otherwise the list is appended and each entry gets this element as parent; a class drops its cached answer (ResolvedClass.kt:62-65). |
| ResolvedElements.ResolvedElement.RemoveChildAsWritten | krapper_gen/src/commonMain/kotlin/resolved_model/ResolvedElement.kt:64-66 | The first child equal to the argument goes; the cached `isNotEmpty` answer of a class is kept. |
| ResolvedElements.ResolvedElement.ClearChildrenAsWritten | krapper_gen/src/commonMain/kotlin/resolved_model/ResolvedElement.kt:32-34 | No children remain; a class keeps its cached answer. |
| ResolvedElements.ResolvedElement.RemoveChild | krapper_gen/src/commonMain/kotlin/resolved_model/ResolvedElement.kt:64-66 | As above, but a class drops its cached answer, so the cache stays consistent with the children. |
| ResolvedElements.ResolvedElement.ClearChildren | krapper_gen/src/commonMain/kotlin/resolved_model/ResolvedElement.kt:32-34 | No children remain and the cache is dropped; afterwards a class is non-empty exactly when it has a base class. |
| ResolvedElements.ResolvedElement.IsNotEmpty | krapper_gen/src/commonMain/kotlin/resolved_model/ResolvedClass.kt:72-83 | Answers from the cache when it holds a value, otherwise computes and caches the answer; with a consistent cache the answer is the computed one. |
| ResolvedElements.ResolvedElement.CloneWithoutChildren | krapper_gen/src/commonMain/kotlin/resolved_model/ResolvedClass.kt:53-60 | The copy is a fresh element of the same kind with no children, no parent and no cached answer. |
| ResolvedElements.StaleCacheAfterRemove | krapper_gen/src/commonMain/kotlin/resolved_model/ResolvedElement.kt:64-66 | Asking a class, removing its only member and asking again gives the old answer "not empty" though the class is now empty. |
| ResolvedElements.FreshAnswerAfterRemove | krapper_gen/src/commonMain/kotlin/resolved_model/ResolvedElement.kt:64-66 | With the corrected `removeChild`, the same sequence answers "empty" after the removal. |
| Dedup.RemoveOne | krapper_gen/src/nativeMain/kotlin/com/monkopedia/krapper/generator/model/WrappedElement.kt:75-77 | `remove` drops one occurrence when the element is present and changes nothing otherwise; nothing new appears. |
| Dedup.RemoveEachAppend | krapper_gen/src/nativeMain/kotlin/com/monkopedia/krapper/generator/Parsing.kt:591-596 | Removing one more element after a run of removals is one more `remove` on the result. |
| Dedup.Kept | krapper_gen/src/nativeMain/kotlin/com/monkopedia/krapper/generator/Parsing.kt:588-601 | The surviving children are a sub-list of the original, never longer. |
| Dedup.RemovingDroppedKeepsFirst | krapper_gen/src/nativeMain/kotlin/com/monkopedia/krapper/generator/Parsing.kt:588-597 | With distinct children, removing every element the pass drops leaves exactly the first element per signature and every element without a signature, in order. |
| Dedup.KeptKeepsUnkeyed | krapper_gen/src/nativeMain/kotlin/com/monkopedia/krapper/generator/Parsing.kt:591 | Elements without a signature (non-methods) all stay, in their order. |
| Dedup.KeptKeepsSignatures | krapper_gen/src/nativeMain/kotlin/com/monkopedia/krapper/generator/Parsing.kt:590-596 | Every signature present before the pass is still present after it. |
| Dedup.KeptSignaturesUnique | krapper_gen/src/nativeMain/kotlin/com/monkopedia/krapper/generator/Parsing.kt:590-596 | After the pass no signature is carried by two children. |
| Dedup.KeptOne | krapper_gen/src/nativeMain/kotlin/com/monkopedia/krapper/generator/Parsing.kt:593-595 | A child is dropped exactly when an earlier child carries its signature (`signaturesSeen.add` returned false). |
| WrappedElements.Qualified | krapper_gen/src/nativeMain/kotlin/com/monkopedia/krapper/generator/model/WrappedClass.kt:72-82 | No contract of its own; `QualifiedNested` and `QualifiedExample` state how the names of the enclosing classes and namespaces are joined. |
| WrappedElements.ClassType | krapper_gen/src/nativeMain/kotlin/com/monkopedia/krapper/generator/model/WrappedClass.kt:69-70 | A specified type is always used; otherwise only reading the qualified name can fail, as an illegal argument. |
| WrappedElements.MethodOf | krapper_gen/src/nativeMain/kotlin/com/monkopedia/krapper/generator/model/WrappedMethod.kt:255-262 | Methods, constructors and destructors carry a method declaration; no other element does. |
| WrappedElements.AssignmentIsOperator | krapper_gen/src/nativeMain/kotlin/com/monkopedia/krapper/generator/model/WrappedClass.kt:147-148 | The assignment test picks exactly the methods for which the operator table yields an assignment operator. |
| WrappedElements.VoidCopy | krapper_gen/src/nativeMain/kotlin/com/monkopedia/krapper/generator/model/WrappedMethod.kt:274-284 | `copy(returnType = VOID)` keeps the method and its kind and changes only the return type to void. |
| WrappedElements.Where | krapper_gen/src/nativeMain/kotlin/com/monkopedia/krapper/generator/model/WrappedClass.kt:143 | `filterIsInstance` keeps exactly the children of the selected kind, in order. |
| WrappedElements.WrappedElement.constructor | krapper_gen/src/nativeMain/kotlin/com/monkopedia/krapper/generator/model/WrappedElement.kt:42-47 | A new element has no children and no parent; only the flags given are set. |
| WrappedElements.WrappedElement.ClearChildren | krapper_gen/src/nativeMain/kotlin/com/monkopedia/krapper/generator/model/WrappedElement.kt:49-51 | No children remain; the parent and the flags are unchanged. |
| WrappedElements.WrappedElement.AddChild | krapper_gen/src/nativeMain/kotlin/com/monkopedia/krapper/generator/model/WrappedElement.kt:62-67 | A child already present is refused with `IllegalArgument` and nothing changes; otherwise it is appended; the child's parent is not set. |
| WrappedElements.WrappedElement.AddAllChildren | krapper_gen/src/nativeMain/kotlin/com/monkopedia/krapper/generator/model/WrappedElement.kt:53-60 | If any entry of the list is already a child the call fails with nothing changed; otherwise the whole list is appended; no parent is set. |
| WrappedElements.WrappedElement.RemoveChild | krapper_gen/src/nativeMain/kotlin/com/monkopedia/krapper/generator/model/WrappedElement.kt:75-77 | The first occurrence of the child goes; everything else is kept in order. |
| WrappedElements.WrappedElement.Clone | krapper_gen/src/nativeMain/kotlin/com/monkopedia/krapper/generator/model/WrappedClass.kt:88-106 | The clone shares kind, children and parent, and a class clone carries the constructor, hidden-new and hidden-delete marks. |
| WrappedElements.WrappedElement.CheckCopyConstructor | krapper_gen/src/nativeMain/kotlin/com/monkopedia/krapper/generator/model/WrappedMethod.kt:121-125 | A constructor whose single argument has the class's type becomes a copy constructor; a mark already set stays set; nothing else changes. |
| WrappedElements.WrappedElement.AddDefaultConstructor | krapper_gen/src/nativeMain/kotlin/com/monkopedia/krapper/generator/model/WrappedClass.kt:133-142 | A class that is not abstract, has no constructor and whose bases have none gets one fresh default constructor `new` at the end; otherwise children are unchanged. |
| WrappedElements.WrappedElement.CheckCopyConstructors | krapper_gen/src/nativeMain/kotlin/com/monkopedia/krapper/generator/model/WrappedClass.kt:143-145 | Every constructor child is checked against the class's type; the list of children is unchanged. |
| WrappedElements.WrappedElement.VoidAssignments | krapper_gen/src/nativeMain/kotlin/com/monkopedia/krapper/generator/model/WrappedClass.kt:146-152 | Every assignment operator is replaced by a fresh void-returning copy, moved to the end in its original order; all other children stay in order. |
| WrappedElements.WrappedElement.ReplaceEach | krapper_gen/src/nativeMain/kotlin/com/monkopedia/krapper/generator/model/WrappedClass.kt:149-152 | The loop removes each operator and appends its void copy, in the order of the operators. |
| WrappedElements.WrappedElement.ReplaceWithVoidCopy | krapper_gen/src/nativeMain/kotlin/com/monkopedia/krapper/generator/model/WrappedClass.kt:150-151 | One turn: the operator is removed and its void copy appended. |
| WrappedElements.WrappedElement.RemoveEvery | krapper_gen/src/nativeMain/kotlin/com/monkopedia/krapper/generator/model/WrappedClass.kt:153-162 | Removing each child of a kind one by one leaves exactly the other children in order. |
| WrappedElements.WrappedElement.ModifyMethodsIfNeeded | krapper_gen/src/nativeMain/kotlin/com/monkopedia/krapper/generator/model/WrappedClass.kt:132-163 | Afterwards the children that are neither constructors, destructors nor assignments are exactly those before, in order. The assignment operators are the same ones in the same order, each now returning void. The constructors are the old ones followed by the default `new` exactly when the class is concrete and neither it nor a base has a constructor, or none at all under hidden `new`; each is flagged as a copy constructor when it takes one argument of the class type or already was one. The destructors are exactly the old ones, or none under hidden `delete`. |
| WrappedElements.WrappedElement.ConstructorSteps | krapper_gen/src/nativeMain/kotlin/com/monkopedia/krapper/generator/model/WrappedClass.kt:133-145 | The first two steps add at most the default constructor, at the end of the constructors, exactly when it is needed. They keep the ordinary children, the assignment operators and the destructors as they were. Every constructor copying the class is flagged, and every other constructor keeps its old flag (the added one has none). |
| WrappedElements.WrappedElement.AssignmentAndHidingSteps | krapper_gen/src/nativeMain/kotlin/com/monkopedia/krapper/generator/model/WrappedClass.kt:146-162 | The last two steps keep the ordinary children and turn every assignment into its void copy, in order. They keep the constructors unless `new` is hidden, and the destructors unless `delete` is hidden; under a hidden one, none of that kind remain. |
| WrappedElements.WrappedElement.HideNewAndDelete | krapper_gen/src/nativeMain/kotlin/com/monkopedia/krapper/generator/model/WrappedClass.kt:153-162 | The children become exactly the old ones without constructors (hidden `new`), without destructors (hidden `delete`), without both, or unchanged when neither is hidden. |
| WrappedElements.RemoveEachWhere | krapper_gen/src/nativeMain/kotlin/com/monkopedia/krapper/generator/model/WrappedClass.kt:154-161 | Removing, one by one, every child of a kind leaves the others in order, even when an element appears twice. |
| WrappedElements.AfterVoid | krapper_gen/src/nativeMain/kotlin/com/monkopedia/krapper/generator/model/WrappedClass.kt:146-152 | After step three the ordinary children are unchanged and every assignment returns void. |
| WrappedElements.AfterRemove | krapper_gen/src/nativeMain/kotlin/com/monkopedia/krapper/generator/model/WrappedClass.kt:153-162 | After removing a kind, ordinary children and void assignments are kept and no child of that kind remains. |
| WrappedElements.QualifiedNested | krapper_gen/src/nativeMain/kotlin/com/monkopedia/krapper/generator/model/WrappedClass.kt:72-82 | The qualified name joins, with "::", the names of the enclosing classes and namespaces; other elements add nothing. |
| WrappedElements.QualifiedExample | krapper_gen/src/nativeMain/kotlin/com/monkopedia/krapper/generator/model/WrappedClass.kt:72-82 | A class `TestClass` in namespace `TestLib` is qualified as `TestLib::TestClass`. |
| WrappedElements.ClassTypeExample | krapper_gen/src/nativeMain/kotlin/com/monkopedia/krapper/generator/model/WrappedClass.kt:69-70 | That class's type is the qualified name read as a type. |
| WrappedElements.SpecifiedTypeWins | krapper_gen/src/nativeMain/kotlin/com/monkopedia/krapper/generator/model/WrappedClass.kt:69-70 | A specified type takes precedence over the qualified name. |
| Parsing.Normalized | krapper_gen/src/nativeMain/kotlin/com/monkopedia/krapper/generator/Parsing.kt:616-619 | A type that is neither const nor a reference is left as it is. |
| Parsing.SignatureString | krapper_gen/src/nativeMain/kotlin/com/monkopedia/krapper/generator/Parsing.kt:603-614 | No contract of its own; `SignatureIgnoresConstRef` and `SignatureSeparates` state what equal signatures mean. |
| Parsing.Ordinal | krapper_gen/src/commonMain/kotlin/resolved_model/ResolvedMethod.kt:27-34 | `MethodType.ordinal`: the position of the kind in the enum. No contract of its own; `Parsing.RenderOrdinal` and `OrdinalDigit` state its text. |
| Parsing.RenderOrdinal | krapper_gen/src/nativeMain/kotlin/com/monkopedia/krapper/generator/Parsing.kt:605 | The ordinal is written as a single digit. |
| Parsing.OrdinalDigit | krapper_gen/src/nativeMain/kotlin/com/monkopedia/krapper/generator/Parsing.kt:605 | Different method kinds are written as different digits. |
| Parsing.ArgsSignature | krapper_gen/src/nativeMain/kotlin/com/monkopedia/krapper/generator/Parsing.kt:609-612 | One entry per argument: the normalised type and a comma. No contract of its own; `Parsing.SignatureIgnoresConstRef` and `ArgsSignatureAgree` state it. |
| Parsing.ArgsSignatureAgree | krapper_gen/src/nativeMain/kotlin/com/monkopedia/krapper/generator/Parsing.kt:609-612 | Two argument lists whose types agree pairwise up to const and reference give the same entries. |
| Parsing.NormalizeForms | krapper_gen/src/nativeMain/kotlin/com/monkopedia/krapper/generator/Parsing.kt:616-619 | `maybeUnconst.maybeUnreferenced` maps a plain type and its const, reference, const-reference and reference-to-const forms to the plain type. |
| Parsing.SignatureIgnoresConstRef | krapper_gen/src/nativeMain/kotlin/com/monkopedia/krapper/generator/Parsing.kt:603-614 | Two methods with the same kind, name and argument types up to const and reference get the same signature string. |
| Parsing.SignatureSeparates | krapper_gen/src/nativeMain/kotlin/com/monkopedia/krapper/generator/Parsing.kt:603-608 | With comma-free names, equal signature strings mean the same method kind and the same name. |
| Parsing.PlainSignatureExample | krapper_gen/src/nativeMain/kotlin/com/monkopedia/krapper/generator/Parsing.kt:603-614 | `getAll(int, std::string)` has the signature `2#getAll,int,std::string,`. |
| Parsing.ConstRefSignatureExample | krapper_gen/src/nativeMain/kotlin/com/monkopedia/krapper/generator/Parsing.kt:603-614 | `getAll(int, const std::string&)` has the same signature, so it counts as a duplicate. |
| Parsing.MethodKey | krapper_gen/src/nativeMain/kotlin/com/monkopedia/krapper/generator/Parsing.kt:591 | Methods, constructors and destructors have a signature; other children have none and are never removed. |
| Parsing.RemoveDuplicateMethods | krapper_gen/src/nativeMain/kotlin/com/monkopedia/krapper/generator/Parsing.kt:588-597 | On a class, the pass removes each later method whose signature an earlier one had; with distinct children the result is the first method per signature plus every non-method; other elements are untouched. |
| Parsing.PassDropped | krapper_gen/src/nativeMain/kotlin/com/monkopedia/krapper/generator/Parsing.kt:593-595 | One loop turn removes the child exactly when its signature was already seen. |
| Parsing.DedupTree | krapper_gen/src/nativeMain/kotlin/com/monkopedia/krapper/generator/Parsing.kt:588-601 | The recursive walk keeps each element's identity and kind. |
| Parsing.DedupKidsKept | krapper_gen/src/nativeMain/kotlin/com/monkopedia/krapper/generator/Parsing.kt:588-600 | A class's processed children are its kept children, each processed in turn. |
| Parsing.DedupKidsAll | krapper_gen/src/nativeMain/kotlin/com/monkopedia/krapper/generator/Parsing.kt:598-600 | Any other element keeps all its children, each processed. |
| Parsing.DedupTreeDeduped | krapper_gen/src/nativeMain/kotlin/com/monkopedia/krapper/generator/Parsing.kt:588-601 | After the walk no class anywhere in the tree holds two methods with the same signature. |
| Parsing.DefaultFilter | krapper_gen/src/nativeMain/kotlin/com/monkopedia/krapper/generator/Parsing.kt:292-302 | Only reading a class's qualified name as a type can fail. |
| Parsing.DefaultFilterKinds | krapper_gen/src/nativeMain/kotlin/com/monkopedia/krapper/generator/Parsing.kt:292-302 | Only classes and static methods can pass. |
| Parsing.DefaultFilterClass | krapper_gen/src/nativeMain/kotlin/com/monkopedia/krapper/generator/Parsing.kt:293-295 | A class passes exactly when its type's text starts neither with `std::` nor with `__`. |
| Parsing.DefaultFilterStaticMethod | krapper_gen/src/nativeMain/kotlin/com/monkopedia/krapper/generator/Parsing.kt:296-299 | A static method inside a class, or one whose name starts with `_`, is rejected. |
| Parsing.NamespacedClassType | krapper_gen/src/nativeMain/kotlin/com/monkopedia/krapper/generator/model/WrappedClass.kt:69-82 | A class directly inside a top-level namespace is typed by the two names joined with "::". |
| Parsing.DefaultFilterStdExample | krapper_gen/src/nativeMain/kotlin/com/monkopedia/krapper/generator/Parsing.kt:293-295 | `std::vector` is rejected. |
| Parsing.DefaultFilterTestLibExample | krapper_gen/src/nativeMain/kotlin/com/monkopedia/krapper/generator/Parsing.kt:293-295 | `TestLib::TestClass` passes. |
| TemplateMapping.TypedMapping | krapper_gen/src/nativeMain/kotlin/com/monkopedia/krapper/generator/Parsing.kt:536-579 | No contract of its own; `TypedMappingFails`, `ArgumentBound`, `DefaultPhaseKeeps`, `MappingKeys` and `MissingDefaultUnbound` state its failures and bindings. |
| TemplateMapping.BuildMapping | krapper_gen/src/nativeMain/kotlin/com/monkopedia/krapper/generator/Parsing.kt:536-579 | The two loops of `typedAs` compute the mapping their specification describes: the argument loop, then the default loop over the parameters past the last argument. |
| TemplateMapping.BindArgument | krapper_gen/src/nativeMain/kotlin/com/monkopedia/krapper/generator/Parsing.kt:542-547 | One argument binds the parameter's name and usr, then each merged parameter's name and usr, to the mapped type. |
| TemplateMapping.BindKeysAt | krapper_gen/src/nativeMain/kotlin/com/monkopedia/krapper/generator/Parsing.kt:542-547 | After binding, every listed name and usr maps to the type and every other key keeps its previous entry. |
| TemplateMapping.TypedMappingFails | krapper_gen/src/nativeMain/kotlin/com/monkopedia/krapper/generator/Parsing.kt:537-541 | The mapping fails, with an illegal-argument error, exactly when some argument paired with a parameter cannot be mapped. |
| TemplateMapping.ArgumentBound | krapper_gen/src/nativeMain/kotlin/com/monkopedia/krapper/generator/Parsing.kt:537-548 | On success, a parameter that received an argument has its name and usr bound to the argument's mapped type, when no other parameter reuses them. |
| TemplateMapping.DefaultPhaseKeeps | krapper_gen/src/nativeMain/kotlin/com/monkopedia/krapper/generator/Parsing.kt:572-579 | The default loop writes only the names and usrs of the parameters it visits. |
| TemplateMapping.MappingKeys | krapper_gen/src/nativeMain/kotlin/com/monkopedia/krapper/generator/Parsing.kt:536-579 | Nothing but template-parameter names and usrs is ever bound. |
| TemplateMapping.MissingDefaultUnbound | krapper_gen/src/nativeMain/kotlin/com/monkopedia/krapper/generator/Parsing.kt:572-573 | A parameter past the last argument that has no default, and whose name no other parameter uses, stays unbound. |
| FilePaths.Child | krapper_gen/src/nativeMain/kotlin/com/monkopedia/krapper/generator/codegen/File.kt:51 | The child has one more segment and is named by the name given. |
| FilePaths.Path | krapper_gen/src/nativeMain/kotlin/com/monkopedia/krapper/generator/codegen/File.kt:53-54 | A path is never empty and always starts with `/`. |
| FilePaths.Name | krapper_gen/src/nativeMain/kotlin/com/monkopedia/krapper/generator/codegen/File.kt:55-56 | No contract of its own; `ChildParent` and `RootExample` state the names of a child and of the root. |
| FilePaths.Parent | krapper_gen/src/nativeMain/kotlin/com/monkopedia/krapper/generator/codegen/File.kt:57-58 | The parent fails, as an out-of-bounds sub-list, exactly for the root; otherwise the file is the parent's child under its own name. |
| FilePaths.RelativeTo | krapper_gen/src/nativeMain/kotlin/com/monkopedia/krapper/generator/codegen/File.kt:125-138 | No contract of its own; `RelativeToPrefix`, `RelativeResolves` and `RelativeExamples` state its two outcomes. |
| FilePaths.FromPath | krapper_gen/src/nativeMain/kotlin/com/monkopedia/krapper/generator/codegen/File.kt:47-49 | Reading a path always yields at least one segment. |
| FilePaths.FirstMismatch | krapper_gen/src/nativeMain/kotlin/com/monkopedia/krapper/generator/codegen/File.kt:126-128 | The first index where the two segment lists differ within the shorter length, with all earlier segments equal; none when they agree throughout. |
| FilePaths.SplitJoin | krapper_gen/src/nativeMain/kotlin/com/monkopedia/krapper/generator/codegen/File.kt:48-54 | Splitting on '/' undoes joining with '/' when no segment holds a '/'. |
| FilePaths.PathRoundTrip | krapper_gen/src/nativeMain/kotlin/com/monkopedia/krapper/generator/codegen/File.kt:47-54 | An absolute path is read and printed back unchanged; a relative one comes back below the working directory. |
| FilePaths.SegmentsRoundTrip | krapper_gen/src/nativeMain/kotlin/com/monkopedia/krapper/generator/codegen/File.kt:46-54 | A file whose segments hold no '/' is read back from its own path. |
| FilePaths.RootExample | krapper_gen/src/nativeMain/kotlin/com/monkopedia/krapper/generator/codegen/File.kt:53-56 | The root prints as "/" and is named "/", but reading "/" back gives one empty segment whose name is empty. |
| FilePaths.ChildParent | krapper_gen/src/nativeMain/kotlin/com/monkopedia/krapper/generator/codegen/File.kt:51-58 | A child's parent is the file it was made from and its name is the name given; the root has no parent (the sub-list call fails). |
| FilePaths.RelativeToPrefix | krapper_gen/src/nativeMain/kotlin/com/monkopedia/krapper/generator/codegen/File.kt:125-131 | When the two segment lists agree as far as both go, `relativeTo` returns the absolute path. |
| FilePaths.RelativeResolves | krapper_gen/src/nativeMain/kotlin/com/monkopedia/krapper/generator/codegen/File.kt:132-137 | Otherwise the relative path, resolved from the other file's directory, leads back to the file (when the tail holds no "..") |
| FilePaths.RelativeExamples | krapper_gen/src/nativeMain/kotlin/com/monkopedia/krapper/generator/codegen/File.kt:125-138 | A sibling is named alone, a file below by its sub-path, and a file in a parent directory with a leading "..". |
| CompileFlagsModel.Distinct | krapper_gen/src/nativeMain/kotlin/com/monkopedia/krapper/generator/codegen/CompileFlags.kt:32 | `toSet()` keeps every element, each exactly once, and adds none. |
| CompileFlagsModel.Parents | krapper_gen/src/nativeMain/kotlin/com/monkopedia/krapper/generator/codegen/CompileFlags.kt:40 | Each file's entry is its parent directory (defined because every file read from a path has a segment). |
| CompileFlagsModel.Files | krapper_gen/src/nativeMain/kotlin/com/monkopedia/krapper/generator/codegen/CompileFlags.kt:32-34 | Each path is read as a file in the same position. |
| CompileFlagsModel.Create | krapper_gen/src/nativeMain/kotlin/com/monkopedia/krapper/generator/codegen/CompileFlags.kt:18-34 | A successful construction holds only files read from paths. |
| CompileFlagsModel.CreateFails | krapper_gen/src/nativeMain/kotlin/com/monkopedia/krapper/generator/codegen/CompileFlags.kt:24-30 | Construction fails, with an illegal state, exactly when some library ends in neither ".a" nor ".so". |
| CompileFlagsModel.Partition | krapper_gen/src/nativeMain/kotlin/com/monkopedia/krapper/generator/codegen/CompileFlags.kt:33-34 | Every accepted library lands in exactly one of the static and dynamic lists. |
| CompileFlagsModel.StaticNames | krapper_gen/src/nativeMain/kotlin/com/monkopedia/krapper/generator/codegen/CompileFlags.kt:33 | The static libraries are exactly the libraries ending in ".a" when `linkStatics` is off, and none when it is on; never more than there are libraries. |
| CompileFlagsModel.DynamicNames | krapper_gen/src/nativeMain/kotlin/com/monkopedia/krapper/generator/codegen/CompileFlags.kt:34 | The dynamic libraries are every library when `linkStatics` is on, and otherwise exactly those ending in ".so"; never more than there are libraries. |
| CompileFlagsModel.LinkStaticsAllDynamic | krapper_gen/src/nativeMain/kotlin/com/monkopedia/krapper/generator/codegen/CompileFlags.kt:33-34 | With `linkStatics`, no library is static and every library is dynamic. |
| CompileFlagsModel.LinkNameStrips | krapper_gen/src/nativeMain/kotlin/com/monkopedia/krapper/generator/codegen/CompileFlags.kt:43-55 | `lib<n>.a` and (when n does not end in ".a") `lib<n>.so` link as `-l<n>`. |
| CompileFlagsModel.IncludeDirsShape | krapper_gen/src/nativeMain/kotlin/com/monkopedia/krapper/generator/codegen/CompileFlags.kt:71-76 | The include options end with the pointer-compression define and name every header's directory, each directory once and no other. |
| CompileFlagsModel.HeaderFile | krapper_gen/src/nativeMain/kotlin/com/monkopedia/krapper/generator/codegen/CompileFlags.kt:32 | A header path `/dir/name` reads as those two segments. |
| CompileFlagsModel.CreateHeadersOnly | krapper_gen/src/nativeMain/kotlin/com/monkopedia/krapper/generator/codegen/CompileFlags.kt:18-34 | Headers without libraries give the distinct header files and no libraries. |
| CompileFlagsModel.IncludeDirsExample | krapper_gen/src/nativeMain/kotlin/com/monkopedia/krapper/generator/codegen/CompileFlags.kt:71-76 | Two headers in one directory give a single `-I` option. |
| CompileFlagsModel.LinkerOptsExample | krapper_gen/src/nativeMain/kotlin/com/monkopedia/krapper/generator/codegen/CompileFlags.kt:36-57 | One shared library `/dir/lib<n>.so` gives `-L/dir -l<n>` and no static options. |
| CompileFlagsModel.LinkName | krapper_gen/src/nativeMain/kotlin/com/monkopedia/krapper/generator/codegen/CompileFlags.kt:44-54 | The link name is never longer than the file name, and a name without the prefix or either suffix is kept. |
| CompileFlagsModel.LinkerOpts | krapper_gen/src/nativeMain/kotlin/com/monkopedia/krapper/generator/codegen/CompileFlags.kt:36-57 | The linker options are absent exactly when there is no dynamic library. |
| CompileFlagsModel.LibraryOpts | krapper_gen/src/nativeMain/kotlin/com/monkopedia/krapper/generator/codegen/CompileFlags.kt:59-63 | The library options are absent exactly when there is no static library. |
| CompileFlagsModel.LibraryPaths | krapper_gen/src/nativeMain/kotlin/com/monkopedia/krapper/generator/codegen/CompileFlags.kt:65-69 | The library paths are absent exactly when there is no static library. |
| CompileFlagsModel.IncludeDirs | krapper_gen/src/nativeMain/kotlin/com/monkopedia/krapper/generator/codegen/CompileFlags.kt:71-76 | The include options are absent exactly when there is no header. |
| Mappings.Climb | krapper_gen/src/commonMain/kotlin/Mapping.kt:124-135 | No contract of its own; `ClimbStep`, `ClimbDropped` and `ClimbAtMostOne` state that the parent is replaced by its refilled clone, that the climb ends silently at the root, and that it records at most one modification. |
| Mappings.ReplaceRequest | krapper_gen/src/commonMain/kotlin/Mapping.kt:118-137 | `replaceWith`: on the mapped element a child answer, on its parent a parent answer, anywhere else the climb with the replacement. No contract of its own; `Mappings.RequestDirect`, `ClimbStep`, `ClimbDropped` and `ReplaceWithSelf` state it. |
| Mappings.RemoveRequest | krapper_gen/src/commonMain/kotlin/Mapping.kt:97-116 | `remove`: the same three cases, the climb refilling the parent without the element. No contract of its own; `Mappings.RequestDirect`, `ClimbStep` and `ClimbDropped` state it. |
| Mappings.AddRequestAsWritten | krapper_gen/src/commonMain/kotlin/Mapping.kt:139-158 | No contract of its own; `AddAsWrittenReplaces` and `AddGrandchildCounterexample` state that away from the mapped element and its parent it records what `replaceWith` records. |
| Mappings.AddRequest | krapper_gen/src/commonMain/kotlin/Mapping.kt:139-158 | No contract of its own; `AddKeepsElement` states that the element keeps its place and gains the new child. |
| Mappings.Request | krapper_gen/src/commonMain/kotlin/Mapping.kt:97-158 | No contract of its own; `RequestDirect`, `RequestBelow` and `RequestDropped` state its three outcomes. |
| Mappings.Outcome | krapper_gen/src/commonMain/kotlin/Mapping.kt:87-95 | No contract of its own; `OutcomeBound` states that it holds no more modifications than calls. |
| Mappings.EditAt | krapper_gen/src/commonMain/kotlin/Mapping.kt:125-135 | No contract of its own; the independent reading of an edit that `ClimbStep`, `RequestBelow`, `EditAtSelf` and `EditAtDiffers` relate the climb to. |
| Mappings.WithChild | krapper_gen/src/commonMain/kotlin/Mapping.kt:147-156 | The element with the new child appended after its existing children, identity kept. |
| Mappings.RequestedChild | krapper_gen/src/commonMain/kotlin/MappingService.kt:47-53 | A non-negative index names that child of the request's parent (failing when out of range) and the parent is its parent; a negative index names the parent itself, which has no parent. |
| Mappings.Rebuild | krapper_gen/src/commonMain/kotlin/Mapping.kt:125-135 | The parent's clone is refilled child by child, with the edited child swapped for its substitute. |
| Mappings.Mapper.constructor | krapper_gen/src/commonMain/kotlin/Mapping.kt:77-81 | A new mapping has no modifications and no current element. |
| Mappings.Mapper.ReplaceWith | krapper_gen/src/commonMain/kotlin/Mapping.kt:118-137 | `replaceWith` appends the modifications its specification gives and leaves the current element alone. |
| Mappings.Mapper.Remove | krapper_gen/src/commonMain/kotlin/Mapping.kt:97-116 | `remove` appends the modifications its specification gives. |
| Mappings.Mapper.AddAsWritten | krapper_gen/src/commonMain/kotlin/Mapping.kt:139-158 | `add` as the source has it: away from the mapped element and its parent, the new child takes the element's place. |
| Mappings.Mapper.Add | krapper_gen/src/commonMain/kotlin/Mapping.kt:139-158 | `add` as intended: the new child is appended to the element's children. |
| Mappings.Mapper.MapElement | krapper_gen/src/commonMain/kotlin/Mapping.kt:87-95 | The modifications are cleared, the requested child becomes current, the user code runs, with `add` as corrected, and the answer is exactly what its calls recorded; an index out of range fails before anything is recorded. |
| Mappings.RebuiltAt | krapper_gen/src/commonMain/kotlin/Mapping.kt:127-133 | The refill loop puts the substitute exactly where the element was and keeps every sibling in its order. |
| Mappings.ClimbStep | krapper_gen/src/commonMain/kotlin/Mapping.kt:124-135 | One step of the climb: the parent's refilled clone is the parent edited along the path. |
| Mappings.ClimbDropped | krapper_gen/src/commonMain/kotlin/Mapping.kt:124 | When neither the mapped element nor its parent lies on the chain above, the edit is dropped without a trace (the root has no parent). |
| Mappings.ClimbAtMostOne | krapper_gen/src/commonMain/kotlin/Mapping.kt:97-158 | An edit records at most one modification. |
| Mappings.OutcomeBound | krapper_gen/src/commonMain/kotlin/Mapping.kt:87-95 | A mapping answers with no more modifications than calls its code made. |
| Mappings.RequestDirect | krapper_gen/src/commonMain/kotlin/Mapping.kt:98-101 | An edit on the mapped element itself is recorded as the matching child answer, and one on its parent as the matching parent answer. |
| Mappings.RequestBelow | krapper_gen/src/commonMain/kotlin/Mapping.kt:102-115 | An edit made below the mapped element (or its parent) is recorded as that ancestor replaced by a copy with the edit applied at the element's place. |
| Mappings.RequestDropped | krapper_gen/src/commonMain/kotlin/Mapping.kt:103 | An edit whose chain holds neither the mapped element nor its parent records nothing. |
| Mappings.EditAtSelf | krapper_gen/src/commonMain/kotlin/Mapping.kt:125-135 | Replacing an element by itself anywhere below an ancestor gives the ancestor back unchanged. |
| Mappings.ReplaceWithSelf | krapper_gen/src/commonMain/kotlin/Mapping.kt:118-137 | `replaceWith` with the element itself, below the mapped element, answers with the mapped element unchanged. |
| Mappings.AddAsWrittenReplaces | krapper_gen/src/commonMain/kotlin/Mapping.kt:145-156 | As written, `add` away from the mapped element and its parent records exactly what `replaceWith` records. |
| Mappings.AddGrandchildCounterexample | krapper_gen/src/commonMain/kotlin/Mapping.kt:145-156 | Adding element 3 to grandchild 2 of mapped element 1 replaces 2 by 3 as written; intended is 2 keeping its place with 3 as its child. |
| Mappings.AddKeepsElement | krapper_gen/src/commonMain/kotlin/Mapping.kt:139-158 | With `add` as intended, an element below the mapped one keeps its place and its children and gains the new child after them, which differs from removing it. |
| Mappings.EditAtDiffers | krapper_gen/src/commonMain/kotlin/Mapping.kt:125-135 | Two different substitutes yield two different trees. |
| Decimal.ToInt | krapper_gen/src/nativeMain/kotlin/com/monkopedia/krapper/generator/model/type/WrappedTypeReference.kt:59 | A parsed number lies in the 32-bit range; the empty text and every other failure is a number-format error. |
| Decimal.Render | krapper_gen/src/nativeMain/kotlin/com/monkopedia/krapper/generator/Parsing.kt:603-608 | The decimal text of a number is non-empty and all digits. |
| Decimal.RenderValue | krapper_gen/src/nativeMain/kotlin/com/monkopedia/krapper/generator/Parsing.kt:603-608 | The digits of the decimal text read back as the number. |
| Decimal.ToIntRender | krapper_gen/src/nativeMain/kotlin/com/monkopedia/krapper/generator/model/type/WrappedTypeReference.kt:59 | `toInt` reads back the decimal text of any number in the Int range. |

## Left out

- libclang: reading headers, cursors, diagnostics and the element constructors that read cursors (`WrappedElement.mapAll`, `parseHeader`) are foreign calls and are not part of this model. Element trees are given as values.
- File system and process calls: `File.rmR`, `isDir`, `listFiles`, `mkdirs`, `exists`, `readText`, `writeText` and the compiler invocation are I/O. The working directory is a parameter (`cwd`) of `FilePaths.FromPath`.
- The plugin RPC transport and the mapping service plumbing are out of scope. The mapping's user code is given as the list of edits it makes.
- Mappings.Mapper.MapElement: the `as? T` check on the requested element and the resolver calls a mapping may make (`resolvedType` and the like) are not modelled.
- Mappings: elements are values with identities, so the parent links that `addChild` sets on the clone and its duplicate check during the rebuild are not modelled.
- Filters.Matches: the `REGEX` matcher calls Kotlin's regex engine, so it is a parameter predicate (`regex`) and is not modelled.
- The `INCLUDE_MISSING` reference policy of the resolver is not modelled. It calls back into class lookup and changes the tracker.
- Notifications (`notifyFailed`) and debug output of the resolver are not modelled.
- ImportBlocks.BuildImportBlock: the processed-set check of `findFqSymbols` is not modelled. That check throws on a container visited twice.
- `WrappedType.clone` and `WrappedBase.clone`: types are values here, so a clone is the value itself.
- Parsing.DefaultFilter: the text of the root element (`baseParent.toString()`) is a parameter (`rootText`), because element printing is not modelled.
- Parsing.RemoveDuplicateMethods: the method covers the pass over one class's children. The descent into every child is stated on tree values by `Parsing.DedupTree`.
- `typedAs` beyond its mapping loops is not modelled: the mapper closure, the cloning of the template's children and the final `resolve`. `TemplateMapping.BuildMapping` takes the argument mapping and the default-type mapping as parameters.
- `WrappedClass.qualified` walks the parent links (`withParents`). Here the ancestor chain is given as a sequence of kinds.
- CppWriter.GenerateReturn: the private functions `createStringReturn` and `createPointedStringReturn` (CppWriter.kt:261-296) are modelled only as the single statement `StringCopyReturn`, with a flag for the pointer case. The text they emit is not modelled: the locals `ret_value` and `ret_value_cast`, the `copy` of the string into a fresh `char` array one longer than the string, and the return of that array.
- CppWriter: the symbol helpers `addressOf` and placement `new` are defined outside the core files. They appear as abstract statements, and their text is not modelled.
- The two-argument `assign(other, plusEquals)` helper that `CppWriter.kt` uses for assignment operators is not part of the sources. It is modelled as writing `a = b`, or `a += b` for `+=`.
- `STACK_CONSTRUCTOR_CALLBACK` and the callback-based constructor bodies are not modelled.
- Signatures.MethodSignature: the `when` over method types in `generateMethodSignature` has no `STATIC` branch, and this model gives `None` for that case.
- Text: Kotlin's `trim()` is modelled with a fixed whitespace set: space, tab, line feed, carriage return, form feed and vertical tab. Unicode space categories are not modelled.
- TemplateScan.FindTemplates: the loop runs on the corrected `findEnd` (first row under Findings). The loop as written is `TemplateScan.TemplatesFromAsWritten`; `TemplateScan.TemplatesAsWrittenAgree` shows that it agrees wherever the as-written `findEnd` finds the matching `>`.
- TemplateScan.FindQualifiers: the loop runs on the corrected `findEnd`. The loop as written is `TemplateScan.QualifiersFromAsWritten`, related to it by `TemplateScan.QualifiersAsWrittenAgree`.
- TemplateScan.TemplatesSplitAtTopLevelCommas: the success condition holds for the corrected scanner only. As written, `findTemplates` throws on sibling template arguments such as `a<b>,c<d>` (`TemplateScan.TemplatesSiblingCounterexample`).
- TemplateScan.QualifiersSplitAtTopLevelSeparators: the success condition holds for the corrected scanner only. As written, `findQualifiers` throws on `a<b>::c<d>` (`TemplateScan.QualifiersSiblingCounterexample`).
- KotlinTypes.FromType: it reads template arguments with the corrected scanner (`TemplateScan.Qualifiers` and, through `KotlinTypes.ParseTypes`, `TemplateScan.Templates`). The source throws `IllegalStateException` on a name with two template arguments that are themselves templates, such as `std::pair<std::vector<int>, std::vector<int>>`; this model reads it.
- KotlinTypes.FromName: its template arguments come from `KotlinTypes.ParseTypes`, so on the same names, where the source throws `IllegalStateException`, this model gives a type.
- KotlinTypes.ParseTypes: it cuts the argument list with the corrected `findTemplates` (`TemplateScan.Templates`). The source's loop runs on the as-written `findEnd` and throws `IllegalStateException` on sibling template arguments such as `std::vector<int>, std::vector<int>` (`TemplateScan.TemplatesSiblingCounterexample`).
- Mappings.Mapper.MapElement: an `add` is dispatched to the corrected request (`Mappings.Mapper.Add`), not to the as-written `Mappings.Mapper.AddAsWritten` (last row under Findings).
- Mappings.Request: an `Add` edit is recorded through the corrected `Mappings.AddRequest`, not the as-written `Mappings.AddRequestAsWritten`. For an `add` below the mapped element the source records that element replaced by the new child (`Mappings.AddGrandchildCounterexample`); this model records the element with the child added.
- Mappings.Outcome: it collects the records of `Mappings.Request`, so for an `add` below the mapped element it gives the corrected answer, not the source's.
- Mappings.RequestBelow: through `Mappings.Substitute` it states the corrected `add`: the element keeps its place and gains the child. As written, the new child takes the element's place.
- ResolveState.ResolveContext.Map: the type mapping is a pure function of the type. The source's reference policies call `tracker.canResolve`, which can record resolved classes in the tracker; that effect is not modelled.
- ResolveState.ResolveTracker.CanResolveName: class resolution is a parameter that depends only on the name, so the contract says that only the entry for that name changes. In the source, resolving one class can record others in the tracker.
- ResolveState.ResolveTracker.CanResolveName: the exception path of the `try`/`finally` (taken under the `THROW_MISSING` policy) is not modelled. Only the normal return, which restores the set of names under resolution, is.
- Text.Lower: `Text.IsLower`, `Text.IsUpper`, `Text.IsLetter`, `Text.LowerChar`, `Text.Lower` and `Text.Decapitalize` know only the ASCII letters. Kotlin's case functions follow Unicode, so for names with other letters `CamelCase` and `ResolvedTypes.FullyQualified` and `ResolvedTypes.Pkg` may differ from the source.
- ResolvedTypes.Nullable: Kotlin types are values here. In the source, the copies made by `nullable` and `typedWith` share their template objects with the original, so a later `setNameRemap` on one reaches the others; that aliasing is not modelled. The remap is also part of the datatype's equality, while Kotlin's data-class equality ignores it.
- ElementTrees.Clone: trees carry no parent links. In the source, `cloneRecursive` (WrappedElement.kt:258-264) leaves the cloned children's `parent` pointing at the original element; that is not captured.
- KotlinWriter.KotlinMethod: `uniqueCName` is a plain string, so the `error("Unnamed method …")` failure when it is missing (KotlinWriter.kt:313 and 341) is not modelled.
- MethodResolve.ResolveConstructor: the `location` argument is a fixed `void*` argument. The `!!` on `resolve(pointerTo(VOID))` in `thizArg` and `postArgs` (WrappedMethod.kt:127 and 148), which throws when the mapping removes `void*`, is not modelled.
- CppTypes.RefIsNative: the last alternative of `isNative` (WrappedTypeReference.kt:82) asks `isPointer && pointed.isNative`, but `WrappedTypeReference` overrides neither `isPointer` nor `pointed` (WrappedType.kt:64-65 declares them abstract). The model reads a type reference as never a pointer, so that alternative never holds; pointers are `Modified` types here.
- CppTypes.RefIsNative: for a name that ends in `]` but holds no `[`, `arrayType` fails its requirement, so the source's `isNative` throws `IllegalArgumentException`. The model answers false there (`CppTypes.MalformedArrayNotNative`), and so do `CppTypes.IsNative` and `CppTypes.RefCType`, which then fails with IllegalState.
- Concurrency (`suspend` functions, coroutines) plays no part; everything is modelled as sequential.

## Findings

| source | as written | input that shows it | evidently intended | confidence | as-written member | corrected member |
|---|---|---|---|---|---|---|
| krapper_gen/src/nativeMain/kotlin/com/monkopedia/krapper/generator/model/WrappedKotlinType.kt:231-243 | After a nested `<` is closed, `findEnd` keeps looking for further `<` beyond the `>` that closes `start`, and only then for a `>`; `findTemplates` and `findQualifiers` inherit this | `"a<b>,c<d>"` from index 1: the search jumps over `c<d>` and throws `IllegalStateException`, so `findTemplates("a<b>,c<d>")` and `findQualifiers("a<b>::c<d>")` throw | return 3, the `>` matching the `<` at 1 | not executed | TemplateScan.FindEndAsWritten, TemplateScan.FindEndSiblingCounterexample, TemplateScan.TemplatesSiblingCounterexample, TemplateScan.QualifiersSiblingCounterexample | TemplateScan.FindEnd, TemplateScan.FindTemplates, TemplateScan.FindQualifiers |
| krapper_gen/src/nativeMain/kotlin/com/monkopedia/krapper/generator/model/WrappedMethod.kt:242-253 | The string test comes before the pointer-to-string test, and it already accepts a pointer to a string | a `std::string*` return type: style `STRING`, so `STRING_POINTER` is never chosen | `STRING_POINTER` for a pointer to a string | not executed | Methods.StringPointerUnreachable | Methods.CorrectedReturnStyle |
| krapper_gen/src/nativeMain/kotlin/com/monkopedia/krapper/generator/codegen/CppWriter.kt:236-252 | `generateReturn` has no branch for `RETURN_REFERENCE` | a method returning `int&`: style `RETURN_REFERENCE`, and the body gets no return statement | return the address of the result | not executed; the `when` is a statement over an enum, which newer Kotlin compilers reject when it is not exhaustive, so the built program may not contain this code at all | CppWriter.GenerateReturnAsWritten, CppWriter.ReferenceReturnMissing | CppWriter.GenerateReturn |
| krapper_gen/src/commonMain/kotlin/resolved_model/ResolvedElement.kt:64-66 | `removeChild` (and `clearChildren`) leave `ResolvedClass`'s cached `isNotEmpty` answer in place | ask a class with one method, remove the method, ask again: still "not empty" | drop the cache as `addChild` does | not executed | ResolvedElements.ResolvedElement.RemoveChildAsWritten, ResolvedElements.StaleCacheAfterRemove | ResolvedElements.ResolvedElement.RemoveChild |
| krapper_gen/src/commonMain/kotlin/Mapping.kt:139-158 | `add` on an element that is neither the mapped element nor its parent puts the new child in the element's place | mapped element 1 with child 2: `2.add(3)` answers 1 with child 3 instead of 2 | 2 keeps its place and gains 3 as a child | not executed | Mappings.AddRequestAsWritten, Mappings.AddGrandchildCounterexample | Mappings.AddRequest |
