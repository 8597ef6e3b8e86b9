# patchtools core, modelled in Dafny

patchtools patches compiled Java classes with text templates. A class template
lists `extends`, `interface`, `field` and `method` lines, each with a mode:
`+` adds, `-` removes, and anything else only matches. Method bodies are lists
of instruction lines. Names starting with `~` are *weak*: the patcher binds
them to concrete classes, fields, methods and labels while matching, and keeps
the bindings in a scope. `*` stands for "anything".

This project models the core of that process:

- Reading a class template from its lines (`PatchClass` constructor).
- Reading field declarations (`PatchField`).
- Matching a template class against a concrete class (`checkAttributes`,
  `checkFields`, `checkMethods`, `checkTypes`).
- Rewriting descriptors through the bindings (`updatedTypeString`).
- Applying a template to a class (`apply`, `searchParent`).
- The field-instruction and `push-class` handlers: matching, creating,
  printing, validating and listing references.
- The helpers the handlers share (`Utils`).
- The candidate bookkeeping of a matched field (`MatchField`).

ASM's tree nodes are Dafny classes, because their identity matters and `apply`
edits them in place. Descriptors are a small `Type` tree that is read the way
ASM 5 reads them, except on the inputs where ASM throws (`GetTypeThrows`). The scope is a value with four maps. Loops of the source are
`while` loops, proved against left folds over the template lines. The queries
of `MatchField` are functions over its fields.

Files:

- `outcomes.dfy`, `asm_types.dfy`, `asm_tree.dfy`: results, ASM types, ASM nodes.
- `idents.dfy`, `scopes.dfy`, `templates.dfy`: identifiers, the scope, parsed template lines.
- `insn_utils.dfy`: constants, labels, numeric parameters, label names.
- `descriptor_match.dfy`: `checkTypes` and `updatedTypeString`.
- `patch_field.dfy`, `patch_class.dfy`, `patch_apply.dfy`: field lines, class templates, reading, checking, applying.
- `match_field.dfy`, `field_insn.dfy`, `push_class_insn.dfy`: field candidates and the two instruction handlers.

## Model

Source paths are relative to the repository root.

| member | source | states |
|---|---|---|
| Idents.ParseIdent | src/main/java/uk/co/thinkofdeath/patchtools/patch/PatchClass.java:484-485 | A token is weak iff it starts with `~`; the token is the marker plus the name, or the name alone. |
| Idents.ParseRawIdent | src/main/java/uk/co/thinkofdeath/patchtools/patch/PatchClass.java:484-485 | Writing an identifier back as a token and reading it again gives the same identifier. |
| Scopes.PutClass | src/main/java/uk/co/thinkofdeath/patchtools/patch/PatchClass.java:491 | Binding a class name keeps every existing binding and never overwrites one; an unbound name gets the given class. |
| Scopes.PutField | src/main/java/uk/co/thinkofdeath/patchtools/instruction/instructions/FieldInstruction.java:85-86 | Binding a field key keeps every existing binding and never overwrites one. |
| Scopes.PutMethod | src/main/java/uk/co/thinkofdeath/patchtools/patch/PatchClass.java:244 | Binding a method key keeps every existing binding and never overwrites one. |
| Scopes.PutLabel | src/main/java/uk/co/thinkofdeath/patchtools/instruction/instructions/Utils.java:55 | Binding a label of a method keeps every existing binding and never overwrites one. |
| AsmTypes.GetTypeDescriptor | src/main/java/uk/co/thinkofdeath/patchtools/instruction/instructions/FieldInstruction.java:98-99 | Reading the descriptor of a field type (or of a method descriptor) gives that type back. |
| AsmTypes.MethodDescriptorRoundTrip | src/main/java/uk/co/thinkofdeath/patchtools/patch/PatchClass.java:214-220 | Reading a method descriptor built from field types gives back exactly those argument types and that return type. |
| AsmTypes.ElementType | src/main/java/uk/co/thinkofdeath/patchtools/patch/PatchClass.java:500-501 | ASM's element type is the type under all array dimensions: never an array, and shallower. |
| AsmTypes.GetObjectType | src/main/java/uk/co/thinkofdeath/patchtools/instruction/instructions/PushClassInstruction.java:54 | An internal name is an object type, unless it starts with `[`, when it is read as a descriptor. |
| Templates.TrimInfix | src/main/java/uk/co/thinkofdeath/patchtools/patch/PatchClass.java:52-55 | The trimmed line is the part of the line between a run of leading and a run of trailing characters up to the space, and it neither starts nor ends with one. |
| Templates.Join | src/main/java/uk/co/thinkofdeath/patchtools/patch/PatchField.java:62 | No tokens join to the empty string and one token to itself; otherwise the joined text is as long as all the tokens plus one space between each two. |
| Templates.SplitThenJoin | src/main/java/uk/co/thinkofdeath/patchtools/patch/PatchField.java:62 | Joining the pieces of a text cut at its spaces gives the text back. |
| Templates.JoinThenSplit | src/main/java/uk/co/thinkofdeath/patchtools/patch/PatchField.java:62 | A non-empty list of tokens without spaces, joined and cut at the spaces again, is the same list: the join loses no token and no boundary. |
| InsnUtils.ParseConstant | src/main/java/uk/co/thinkofdeath/patchtools/instruction/instructions/Utils.java:29-35 | A constant is accepted iff it is surrounded by double quotes, and its value is the text between them. |
| InsnUtils.ParsePrintConstant | src/main/java/uk/co/thinkofdeath/patchtools/instruction/instructions/Utils.java:29-44 | Printing a string constant and parsing it back gives the string. |
| InsnUtils.PrintedNonStringIsRejected | src/main/java/uk/co/thinkofdeath/patchtools/instruction/instructions/Utils.java:37-44 | A constant that is not a string prints as `unsupported: ...`, which parsing rejects. |
| InsnUtils.CheckOrSetLabel | src/main/java/uk/co/thinkofdeath/patchtools/instruction/instructions/Utils.java:46-61 | A literal label passes iff it is `*`. With no scope, a weak label passes and binds nothing. With a scope, an unbound weak label is bound to this label and passes, and a bound one passes iff it is the same label node. |
| InsnUtils.CheckOrSetLabelTwice | src/main/java/uk/co/thinkofdeath/patchtools/instruction/instructions/Utils.java:52-58 | A weak label met twice in one method passes the second time iff it is the same label node as the first time. |
| InsnUtils.GetLabel | src/main/java/uk/co/thinkofdeath/patchtools/instruction/instructions/Utils.java:64-76 | A literal name fails. A weak name yields its bound label, or a fresh label that is bound from then on. |
| InsnUtils.GetLabelTwice | src/main/java/uk/co/thinkofdeath/patchtools/instruction/instructions/Utils.java:64-76 | Asking twice for the same weak label gives the same label. |
| InsnUtils.ParseInt | src/main/java/uk/co/thinkofdeath/patchtools/instruction/instructions/Utils.java:79 | `Integer.parseInt`: an optional `-` or `+` followed by one or more decimal digits; the value is the digits' value, negated after `-`, and it must lie within 32 bits. A lone sign, an empty string or any other character fails. |
| InsnUtils.ParseIntToString | src/main/java/uk/co/thinkofdeath/patchtools/instruction/instructions/Utils.java:79 | Every 32-bit integer, printed in decimal, parses back to itself. |
| InsnUtils.EqualOrWild | src/main/java/uk/co/thinkofdeath/patchtools/instruction/instructions/Utils.java:78-80 | `*` matches any number. Otherwise the parameter must parse, and it matches iff it equals the number; a bad number is an error. |
| InsnUtils.EqualOrWildPrinted | src/main/java/uk/co/thinkofdeath/patchtools/instruction/instructions/Utils.java:78-80 | A number printed as a parameter matches itself and nothing else. |
| InsnUtils.Letters | src/main/java/uk/co/thinkofdeath/patchtools/instruction/instructions/Utils.java:91-96 | The base-26 letters of a count, least significant first, `A` for 0; never empty. |
| InsnUtils.LettersInjective | src/main/java/uk/co/thinkofdeath/patchtools/instruction/instructions/Utils.java:91-96 | Different counts get different letters. |
| InsnUtils.LabelNameInjective | src/main/java/uk/co/thinkofdeath/patchtools/instruction/instructions/Utils.java:90-97 | Different counts get different `label-` names. |
| InsnUtils.NewLabelName | src/main/java/uk/co/thinkofdeath/patchtools/instruction/instructions/Utils.java:90-97 | The do-while loop builds exactly `label-` plus the letters of the count. |
| InsnUtils.NextNameIsNew | src/main/java/uk/co/thinkofdeath/patchtools/instruction/instructions/Utils.java:89-97 | The name for the next count is not one of the names already handed out. |
| InsnUtils.FreshLabelName | src/main/java/uk/co/thinkofdeath/patchtools/instruction/instructions/Utils.java:89-97 | Naming one more label with the next count keeps the names of one method distinct. |
| InsnUtils.LabelNames.PrintLabel | src/main/java/uk/co/thinkofdeath/patchtools/instruction/instructions/Utils.java:84-100 | A label already named in a method keeps its name. A new one gets `label-` plus the letters of the number of labels named there before. Other methods' names do not change. |
| InsnUtils.LabelNames.DistinctLabelNames | src/main/java/uk/co/thinkofdeath/patchtools/instruction/instructions/Utils.java:84-100 | Two different labels of one method never get the same name. |
| DescriptorMatching.CheckObjectType | src/main/java/uk/co/thinkofdeath/patchtools/patch/PatchClass.java:483-499 | A literal name must be the concrete name. A bound weak name must be bound to it. An unbound weak name is bound to it (corrected key) and passes. With no scope a weak name passes. |
| DescriptorMatching.CheckTypes | src/main/java/uk/co/thinkofdeath/patchtools/patch/PatchClass.java:478-508 | Corrected `checkTypes`. Different sorts fail. Primitive and method types must be equal. Objects go through `CheckObjectType`. Arrays match one level down. A failure binds nothing; only class bindings are added. |
| DescriptorMatching.CheckTypesAsWritten | src/main/java/uk/co/thinkofdeath/patchtools/patch/PatchClass.java:478-508 | `checkTypes` as written: only adds bindings, and fails on different sorts. |
| DescriptorMatching.UpdatedTypeString | src/main/java/uk/co/thinkofdeath/patchtools/patch/PatchClass.java:298-315 | Corrected `updatedTypeString`. It succeeds iff every weak class name in the type is bound. |
| DescriptorMatching.UpdatedTypeStringLiteral | src/main/java/uk/co/thinkofdeath/patchtools/patch/PatchClass.java:298-315 | A descriptor with no weak names is copied unchanged. |
| DescriptorMatching.UpdatedTypeStringExtends | src/main/java/uk/co/thinkofdeath/patchtools/patch/PatchClass.java:298-315 | More bindings do not change a rewrite that already succeeds. |
| DescriptorMatching.CheckTypesThenUpdate | src/main/java/uk/co/thinkofdeath/patchtools/patch/PatchClass.java:298-508 | After a successful match, rewriting the template descriptor through the new scope yields the concrete descriptor. |
| DescriptorMatching.CheckTypesDeterminesMatch | src/main/java/uk/co/thinkofdeath/patchtools/patch/PatchClass.java:478-508 | Within one scope a template descriptor matches only one concrete descriptor. |
| DescriptorMatching.CheckTypesStable | src/main/java/uk/co/thinkofdeath/patchtools/patch/PatchClass.java:478-508 | A match, once made, holds again with nothing new to bind in every scope that keeps its bindings. |
| DescriptorMatching.CheckTypesSelf | src/main/java/uk/co/thinkofdeath/patchtools/patch/PatchClass.java:478-508 | A descriptor with no weak names matches itself and binds nothing. |
| DescriptorMatching.CheckTypesSameDepth | src/main/java/uk/co/thinkofdeath/patchtools/patch/PatchClass.java:500-501 | A corrected match keeps the number of array dimensions. |
| DescriptorMatching.WeakNameRebindsAsWritten | src/main/java/uk/co/thinkofdeath/patchtools/patch/PatchClass.java:489-492 | As written, `~A` matched against `Foo` stays unbound, so it then matches `Bar` too. Corrected, `~A` is bound to `Foo` and `Bar` fails. |
| DescriptorMatching.ArrayDepthIgnoredAsWritten | src/main/java/uk/co/thinkofdeath/patchtools/patch/PatchClass.java:500-501 | As written, `[[I` matches `[I`; corrected, it does not. |
| DescriptorMatching.ArrayDepthLostAsWritten | src/main/java/uk/co/thinkofdeath/patchtools/patch/PatchClass.java:309-311 | As written, `[[I` is rewritten to `[I`; corrected, it is copied. |
| PatchFields.FieldDescOfFieldType | src/main/java/uk/co/thinkofdeath/patchtools/patch/PatchField.java:71-77 | The type read from a field's raw descriptor is the type the descriptor names. |
| PatchFields.ModifiersEnd | src/main/java/uk/co/thinkofdeath/patchtools/patch/PatchField.java:46-58 | The modifier run from index 2 holds only `static`/`private` tokens and stops at the first other token. |
| PatchFields.FieldValue | src/main/java/uk/co/thinkofdeath/patchtools/patch/PatchField.java:59-63 | No tokens left means no constant. Otherwise the tokens joined with spaces must parse as a quoted string, which is the constant. |
| PatchFields.FieldValueQuoted | src/main/java/uk/co/thinkofdeath/patchtools/patch/PatchField.java:59-63 | A printed string constant written as one token is read back as that string. |
| PatchFields.FieldDeclaration | src/main/java/uk/co/thinkofdeath/patchtools/patch/PatchField.java:35-65 | Fewer than two arguments or a rejected descriptor is an error. Otherwise: the ident, the raw descriptor, the command's mode, the flags named in the modifier run, and the constant of the rest. |
| PatchFields.PlainFieldDeclaration | src/main/java/uk/co/thinkofdeath/patchtools/patch/PatchField.java:35-65 | A declaration with only a name and a descriptor is an instance, non-private field with no constant. |
| PatchFields.ParseField | src/main/java/uk/co/thinkofdeath/patchtools/patch/PatchField.java:35-65 | The labelled modifier loop computes exactly `FieldDeclaration`. |
| PatchClasses.ModeAllowed | src/main/java/uk/co/thinkofdeath/patchtools/patch/PatchClass.java:58-63 | In an added class every line must be added; in a removed class every line removed. |
| PatchClasses.ReadStep | src/main/java/uk/co/thinkofdeath/patchtools/patch/PatchClass.java:50-84 | One line of a class template: skipped, appended to the right list, the end of the class, or an error. |
| PatchClasses.ReadBody | src/main/java/uk/co/thinkofdeath/patchtools/patch/PatchClass.java:50-84 | Reading ends within the input. |
| PatchClasses.ReadLine | src/main/java/uk/co/thinkofdeath/patchtools/patch/PatchClass.java:51-83 | One pass of the reading loop computes exactly `ReadStep`. |
| PatchClasses.ParseClass | src/main/java/uk/co/thinkofdeath/patchtools/patch/PatchClass.java:48-85 | A header without exactly one argument fails; otherwise the loop computes exactly `ReadBody` from the header's class. |
| PatchClasses.ReadStepNested | src/main/java/uk/co/thinkofdeath/patchtools/patch/PatchClass.java:58-63 | One line keeps the class nested and keeps its kind, name and mode. |
| PatchClasses.ReadBodyNested | src/main/java/uk/co/thinkofdeath/patchtools/patch/PatchClass.java:48-85 | Everything read into an added class is added, and everything read into a removed class is removed. |
| PatchClasses.SkippedLines | src/main/java/uk/co/thinkofdeath/patchtools/patch/PatchClass.java:52-55 | Blank lines and comments change nothing. |
| PatchClasses.EndClassStops | src/main/java/uk/co/thinkofdeath/patchtools/patch/PatchClass.java:79-80 | An `end-class` line after blank lines ends the class as read so far. |
| PatchClasses.BadCommandRejected | src/main/java/uk/co/thinkofdeath/patchtools/patch/PatchClass.java:65-82 | An unknown command, or an `extends`/`interface` line without exactly one argument, fails the reading. |
| PatchClasses.KindMask | src/main/java/uk/co/thinkofdeath/patchtools/patch/PatchClass.java:324-336 | `class` needs no flag, `interface` the interface flag, `enum` the enum flag; any other kind fails. |
| PatchClasses.MatchesInExtends | src/main/java/uk/co/thinkofdeath/patchtools/patch/PatchClass.java:478-508 | A descriptor match that holds keeps holding with more bindings. |
| PatchClasses.AllMatchInExtends | src/main/java/uk/co/thinkofdeath/patchtools/patch/PatchClass.java:442-453 | Argument lists that match keep matching with more bindings. |
| PatchClasses.Resolve | src/main/java/uk/co/thinkofdeath/patchtools/patch/PatchClass.java:126-131 | A literal name resolves to itself, a weak one to its binding, if there is one. |
| PatchClasses.BindWeakNames | src/main/java/uk/co/thinkofdeath/patchtools/patch/PatchClass.java:342-359 | Binding the weak names of the lines adds only class bindings, each new one to the given class, and leaves every binding line bound. |
| PatchClasses.CheckSuperLine | src/main/java/uk/co/thinkofdeath/patchtools/patch/PatchClass.java:343-357 | One `extends` line: an unbound weak name is bound to the superclass, and the line passes iff it is added or then names `*` or the superclass. |
| PatchClasses.SupersCheck | src/main/java/uk/co/thinkofdeath/patchtools/patch/PatchClass.java:342-359 | The `extends` loop, stopping at the first failing line, adds only class bindings, each new one to the superclass. |
| PatchClasses.SupersCheckAccepts | src/main/java/uk/co/thinkofdeath/patchtools/patch/PatchClass.java:342-359 | The `extends` lines pass iff each one, over the scope before the check, holds or is a weak name not yet bound. |
| PatchClasses.SupersCheckBinds | src/main/java/uk/co/thinkofdeath/patchtools/patch/PatchClass.java:342-359 | The `extends` lines pass iff each holds in the final scope; when they pass, the final scope is the old one with every unbound weak name bound to the superclass. |
| PatchClasses.CheckSupers | src/main/java/uk/co/thinkofdeath/patchtools/patch/PatchClass.java:342-359 | Computes the `extends` loop. It passes iff every line, over the old scope, holds or is an unbound weak name (so `~X` in an empty scope passes), and iff every line holds in the final scope. New bindings go to the superclass only; on success the final scope binds exactly the unbound weak names. |
| PatchClasses.CheckInterfaceLine | src/main/java/uk/co/thinkofdeath/patchtools/patch/PatchClass.java:362-381 | One `interface` line: `*` passes when there is an interface; an unbound weak name is bound to the first interface; the line passes iff it is added or its class is among the interfaces. |
| PatchClasses.InterfacesCheck | src/main/java/uk/co/thinkofdeath/patchtools/patch/PatchClass.java:361-383 | The corrected `interface` loop, stopping at the first failing line, adds only class bindings, each new one to the first interface. |
| PatchClasses.InterfacesCheckAccepts | src/main/java/uk/co/thinkofdeath/patchtools/patch/PatchClass.java:361-383 | The `interface` lines pass iff each one, over the scope before the check, holds, or is a weak name other than `*` not yet bound while the class has an interface. |
| PatchClasses.InterfacesCheckBinds | src/main/java/uk/co/thinkofdeath/patchtools/patch/PatchClass.java:361-383 | The `interface` lines pass iff each holds in the final scope; when they pass, the final scope is the old one with every unbound weak name other than `*` bound to the first interface. |
| PatchClasses.CheckInterfaces | src/main/java/uk/co/thinkofdeath/patchtools/patch/PatchClass.java:361-383 | Corrected interface check, computing the `interface` loop. It passes iff every line, over the old scope, holds or is an unbound weak name with an interface to bind, and iff every line holds in the final scope. New bindings go to the first interface only (`~I` against `Bar`, `Baz` binds `Bar`). |
| PatchClasses.CheckModifiers | src/main/java/uk/co/thinkofdeath/patchtools/patch/PatchClass.java:342-383 | The `extends` lines, then the `interface` lines: the verdict over the old scope and over the final one, new bindings only to the superclass or the first interface, and on success the final scope with exactly those bindings. |
| PatchClasses.CheckAttributes | src/main/java/uk/co/thinkofdeath/patchtools/patch/PatchClass.java:317-385 | An added class passes. Otherwise a literal class name must be the node's name, an unknown kind is an error, and the result is ok iff the kind flag is set and all `extends`/`interface` lines hold in the final scope, equally iff they accept over the old scope. New bindings go to the superclass or the first interface; on success the final scope is the old one with the weak names bound. |
| PatchClasses.InterfaceScanAsWritten | src/main/java/uk/co/thinkofdeath/patchtools/patch/PatchClass.java:368-380 | The interface scan as written: only adds bindings. |
| PatchClasses.InterfaceRebindAsWritten | src/main/java/uk/co/thinkofdeath/patchtools/patch/PatchClass.java:368-380 | With `~I` bound to `Foo` and interfaces `Bar`, `Baz`, the scan as written passes and binds `Foo` to `Baz`; the corrected check fails. |
| PatchClasses.FindField | src/main/java/uk/co/thinkofdeath/patchtools/patch/PatchClass.java:397-403 | Finds the first field with the name and descriptor, if any. |
| PatchClasses.FieldHoldsExtends | src/main/java/uk/co/thinkofdeath/patchtools/patch/PatchClass.java:390-421 | A field line that holds keeps holding with more class bindings. |
| PatchClasses.FieldCheckSpec | src/main/java/uk/co/thinkofdeath/patchtools/patch/PatchClass.java:390-421 | One field line: it passes iff it holds in the new scope; an unbound field key is an error that binds nothing; any error means the key or node is missing. |
| PatchClasses.CheckField | src/main/java/uk/co/thinkofdeath/patchtools/patch/PatchClass.java:390-421 | Computes one field line of the loop. An unbound field key is an error and leaves the scope unchanged; a missing node is an error only once the name and descriptor checks passed; otherwise ok iff the line holds in the new scope. |
| PatchClasses.FieldsCheckSpec | src/main/java/uk/co/thinkofdeath/patchtools/patch/PatchClass.java:387-423 | The field loop, skipping added lines and stopping at the first failure, passes iff every line holds in the final scope; an error means some line's key or node is missing. |
| PatchClasses.CheckFields | src/main/java/uk/co/thinkofdeath/patchtools/patch/PatchClass.java:387-423 | An added class passes. Otherwise it computes the field loop: ok iff every field line that is not added holds in the final scope, and an error means some line's key or node is missing. |
| PatchClasses.MethodHoldsExtends | src/main/java/uk/co/thinkofdeath/patchtools/patch/PatchClass.java:428-458 | A method line that holds keeps holding with more class bindings. |
| PatchClasses.MatchAllSpec | src/main/java/uk/co/thinkofdeath/patchtools/patch/PatchClass.java:446-457 | Matching type lists pairwise with `checkTypes`, stopping at the first failure, passes iff every pair matches in the final scope. |
| PatchClasses.MatchAllSnoc | src/main/java/uk/co/thinkofdeath/patchtools/patch/PatchClass.java:446-457 | One more pair is matched in the scope the earlier pairs left, and an earlier failure stops the match. |
| PatchClasses.CheckArguments | src/main/java/uk/co/thinkofdeath/patchtools/patch/PatchClass.java:446-453 | Computes the pairwise `checkTypes` fold, so its bindings are those `checkTypes` makes in order (`~A` against `Foo` passes). It passes iff each pair matches in the final scope. |
| PatchClasses.MethodCheckSpec | src/main/java/uk/co/thinkofdeath/patchtools/patch/PatchClass.java:428-458 | One method line: an unbound method key is exactly the error case; otherwise it passes iff it holds in the new scope. |
| PatchClasses.CheckMethod | src/main/java/uk/co/thinkofdeath/patchtools/patch/PatchClass.java:428-458 | Computes one method line: name and argument count must agree, then the arguments and the return type are one `checkTypes` fold. A missing binding is exactly the error case; otherwise ok iff the line holds in the new scope. |
| PatchClasses.MethodsCheckSpec | src/main/java/uk/co/thinkofdeath/patchtools/patch/PatchClass.java:425-460 | The method loop, skipping added lines and stopping at the first failure, passes iff every line holds in the final scope; an error names a line that is not added and whose key is unbound. |
| PatchClasses.CheckMethods | src/main/java/uk/co/thinkofdeath/patchtools/patch/PatchClass.java:425-460 | An added class passes. Otherwise it computes the method loop: ok iff every method line that is not added holds in the final scope, and an error names such a line whose key is unbound. |
| PatchApply.ClassAccess | src/main/java/uk/co/thinkofdeath/patchtools/patch/PatchClass.java:107-117 | An added class is public. It has the enum flag iff its kind is `enum` or, as written, `interface`. It never has the interface flag. |
| PatchApply.AddedClassKinds | src/main/java/uk/co/thinkofdeath/patchtools/patch/PatchClass.java:107-117 | An added `class` or `enum` passes the kind check of a later match. An added `interface` fails it, since it never gets the interface flag. |
| PatchApply.CreateClass | src/main/java/uk/co/thinkofdeath/patchtools/patch/PatchClass.java:104-119 | A fresh class: the template's name, `java/lang/Object` as superclass, no members. It is added to the class set under its name. |
| PatchApply.SuperStep | src/main/java/uk/co/thinkofdeath/patchtools/patch/PatchClass.java:124-143 | An added line sets the superclass to the class it names. A removed line resets it to `java/lang/Object` iff the line, matched, would hold. A matched line changes nothing. An unbound weak name fails. |
| PatchApply.ApplySupers | src/main/java/uk/co/thinkofdeath/patchtools/patch/PatchClass.java:123-144 | The loop leaves the superclass that the `extends` lines compute, and changes no other part of the class. |
| PatchApply.MatchedSupersKeep | src/main/java/uk/co/thinkofdeath/patchtools/patch/PatchClass.java:123-144 | Lines that only match leave the superclass as it is. |
| PatchApply.SupersAfterAppend | src/main/java/uk/co/thinkofdeath/patchtools/patch/PatchClass.java:123-144 | One more line applies to the superclass that the earlier lines left. |
| PatchApply.LastAddedSuperHolds | src/main/java/uk/co/thinkofdeath/patchtools/patch/PatchClass.java:125-132 | After a last added `extends` line, the same line, matched, holds. |
| PatchApply.AddThenRemoveSuper | src/main/java/uk/co/thinkofdeath/patchtools/patch/PatchClass.java:125-142 | Adding a superclass and then removing the same line leaves `java/lang/Object`. |
| PatchApply.InterfaceStep | src/main/java/uk/co/thinkofdeath/patchtools/patch/PatchClass.java:147-178 | Corrected interface step. A line that is not added succeeds iff it holds, and changes nothing. An added line succeeds iff its name resolves, and appends exactly that one name. |
| PatchApply.Contains | src/main/java/uk/co/thinkofdeath/patchtools/patch/PatchClass.java:154-165 | The scan finds the name iff it is in the list. |
| PatchApply.ApplyInterfaces | src/main/java/uk/co/thinkofdeath/patchtools/patch/PatchClass.java:146-178 | The loop leaves the interface list that the `interface` lines compute, and changes no other part of the class. |
| PatchApply.InterfacesAfterHold | src/main/java/uk/co/thinkofdeath/patchtools/patch/PatchClass.java:146-178 | Once the lines apply, the old interfaces are a prefix of the new list, and every line, read as matched, holds on the new list. |
| PatchApply.InterfaceStepAsWritten | src/main/java/uk/co/thinkofdeath/patchtools/patch/PatchClass.java:149-166 | A line that is not added, as written: it succeeds or fails without changing the list. |
| PatchApply.InterfaceApplyRejectsAsWritten | src/main/java/uk/co/thinkofdeath/patchtools/patch/PatchClass.java:154-166 | With `~I` bound to `Foo` and interfaces `Bar`, `Foo`, the line holds, but as written `apply` fails; corrected, it succeeds. |
| PatchApply.InterfaceScanThenApplyAsWritten | src/main/java/uk/co/thinkofdeath/patchtools/patch/PatchClass.java:149-166 | When the as-written interface check of the class passed and apply's scope keeps its bindings, the as-written apply scan of the same lines over a list that starts with the class's interfaces succeeds. |
| PatchApply.MemberAccess | src/main/java/uk/co/thinkofdeath/patchtools/patch/PatchClass.java:196-197 | An added field or method is private, or else public, plus static iff static. |
| PatchApply.FirstMatch | src/main/java/uk/co/thinkofdeath/patchtools/patch/PatchClass.java:185-190 | The position of the first field with the name and descriptor: no earlier field has them. |
| PatchApply.FieldStep | src/main/java/uk/co/thinkofdeath/patchtools/patch/PatchClass.java:181-210 | A matched line changes nothing. A removed line deletes the first field with the bound name and descriptor; an unbound line fails. An added line appends a field with the rewritten descriptor and binds the line to it; an unbound weak class in the descriptor fails. |
| PatchApply.FieldsAfterExtends | src/main/java/uk/co/thinkofdeath/patchtools/patch/PatchClass.java:181-210 | The field lines only add bindings, and only field bindings. |
| PatchApply.MatchedFieldsKeep | src/main/java/uk/co/thinkofdeath/patchtools/patch/PatchClass.java:182 | Field lines that only match leave the fields and the scope untouched. |
| PatchApply.AddThenRemoveField | src/main/java/uk/co/thinkofdeath/patchtools/patch/PatchClass.java:184-208 | Adding a field and then removing the same line restores the fields, when the line was unbound and no field had that name and descriptor. |
| PatchApply.FirstMatchAt | src/main/java/uk/co/thinkofdeath/patchtools/patch/PatchClass.java:188-190 | The first match is the first position that matches. |
| PatchApply.FindFieldIndex | src/main/java/uk/co/thinkofdeath/patchtools/patch/PatchClass.java:188-190 | The scan finds exactly the first match. |
| PatchApply.ApplyRemovedField | src/main/java/uk/co/thinkofdeath/patchtools/patch/PatchClass.java:184-190 | A removed field line deletes the first field with the bound name and descriptor, as `FieldStep` says; an unbound line fails. |
| PatchApply.ApplyAddedField | src/main/java/uk/co/thinkofdeath/patchtools/patch/PatchClass.java:191-208 | An added field line appends one fresh node with the line's flags and constant and the rewritten descriptor, and binds the line, as `FieldStep` says. |
| PatchApply.ApplyField | src/main/java/uk/co/thinkofdeath/patchtools/patch/PatchClass.java:181-210 | Applies one field line as `FieldStep` says. An added field is a fresh node at the end that agrees with its line. |
| PatchApply.ApplyFields | src/main/java/uk/co/thinkofdeath/patchtools/patch/PatchClass.java:181-210 | The loop leaves the fields and the scope that the field lines compute. |
| PatchApply.MappedTypes | src/main/java/uk/co/thinkofdeath/patchtools/patch/PatchClass.java:216-218 | The argument descriptors rewrite iff every weak class in them is bound. |
| PatchApply.MappedTypesLiteral | src/main/java/uk/co/thinkofdeath/patchtools/patch/PatchClass.java:216-218 | Argument descriptors with no weak names are copied unchanged. |
| PatchApply.UpdatedTypeStringSameClasses | src/main/java/uk/co/thinkofdeath/patchtools/patch/PatchClass.java:298-315 | Rewriting a descriptor depends on the class bindings only. |
| PatchApply.MappedTypesSameClasses | src/main/java/uk/co/thinkofdeath/patchtools/patch/PatchClass.java:216-218 | Rewriting argument descriptors depends on the class bindings only. |
| PatchApply.MappedMethodDesc | src/main/java/uk/co/thinkofdeath/patchtools/patch/PatchClass.java:214-220 | The rewritten method descriptor is `(`, the rewritten arguments, `)`, and the rewritten return type. |
| PatchApply.MappedMethodDescLiteral | src/main/java/uk/co/thinkofdeath/patchtools/patch/PatchClass.java:214-220 | A method descriptor with no weak names is copied unchanged. |
| PatchApply.MappedMethodDescSameClasses | src/main/java/uk/co/thinkofdeath/patchtools/patch/PatchClass.java:214-220 | The rewrite depends on the class bindings only. |
| PatchApply.SearchParent | src/main/java/uk/co/thinkofdeath/patchtools/patch/PatchClass.java:255-296 | A method found has the rewritten descriptor, the template's name when that is literal, and is declared by this class or, within the fuel, by a class above it. The class itself is searched first: a hit there is the result. With no hit and no fuel nothing is found. |
| PatchApply.SearchParentOrder | src/main/java/uk/co/thinkofdeath/patchtools/patch/PatchClass.java:284-293 | When the class itself has no match: a hit in the superclass chain is the result, an error there is the result's error, and a miss goes on with the interfaces. |
| PatchApply.SearchParentComplete | src/main/java/uk/co/thinkofdeath/patchtools/patch/PatchClass.java:255-296 | With a literal name and a descriptor that rewrites, the search does not fail, and it finds a method whenever one of that name and descriptor is declared by the class or, within the fuel, above it. |
| PatchApply.SearchNamed | src/main/java/uk/co/thinkofdeath/patchtools/patch/PatchClass.java:257-285 | A class outside the set finds nothing. A method found has the rewritten descriptor, the template's name when that is literal, and is declared by the named class or above it. |
| PatchApply.SearchNamedComplete | src/main/java/uk/co/thinkofdeath/patchtools/patch/PatchClass.java:257-285 | With a literal name and a descriptor that rewrites, the search from a named class does not fail, and it finds a method whenever one is declared by that class or above it. |
| PatchApply.SearchInterfaces | src/main/java/uk/co/thinkofdeath/patchtools/patch/PatchClass.java:287-292 | No interfaces find nothing. A method found has the rewritten descriptor and the template's name when that is literal, and is declared by one of the interfaces or above it. |
| PatchApply.SearchInterfacesOrder | src/main/java/uk/co/thinkofdeath/patchtools/patch/PatchClass.java:287-292 | A hit in the first interface is the result, an error there is the result's error, and a miss there goes on with the remaining interfaces. |
| PatchApply.SearchInterfacesComplete | src/main/java/uk/co/thinkofdeath/patchtools/patch/PatchClass.java:287-292 | With a literal name and a descriptor that rewrites, the search does not fail, and it finds a method whenever one is declared by one of the interfaces or above it. |
| PatchApply.ApplyMethod | src/main/java/uk/co/thinkofdeath/patchtools/patch/PatchClass.java:212-247 | Other lines change nothing. An added line whose descriptor does not rewrite fails, as does a failing search. Otherwise one fresh node is appended with the rewritten descriptor and the access flags, named after the method `searchParent` found (only for public instance methods) or else the line's name, and the line is bound to the found method or the new one. |
| PatchApply.AddIndices | src/main/java/uk/co/thinkofdeath/patchtools/patch/PatchClass.java:212-247 | The positions of the added method lines, each once, in increasing order. |
| PatchApply.ApplyMethodAt | src/main/java/uk/co/thinkofdeath/patchtools/patch/PatchClass.java:212-247 | One pass of the method loop keeps the loop's invariant. |
| PatchApply.ApplyMethods | src/main/java/uk/co/thinkofdeath/patchtools/patch/PatchClass.java:212-252 | One new node per added line, after the old methods, the j-th new node being that of the j-th added line: the rewritten descriptor, the access flags, and, where the line is bound for the first time, the name of the method it is bound to. Every added line ends up bound and only method bindings are added. |
| PatchApply.EditClass | src/main/java/uk/co/thinkofdeath/patchtools/patch/PatchClass.java:121-252 | The superclass, interfaces and fields are those their lines compute, in that order; then the methods gain the new nodes of the added method lines in order, as for `ApplyMethods`. |
| PatchApply.Apply | src/main/java/uk/co/thinkofdeath/patchtools/patch/PatchClass.java:103-253 | An added template creates and registers its class and binds its name, then edits that class; every other name keeps its class. Any other template edits the class bound to its name and changes no other class; its access flags stay and its old methods stay a prefix. Either way the superclass, interfaces, fields and new methods are as `EditClass` states. |
| MatchFields.UncheckedIn | src/main/java/uk/co/thinkofdeath/patchtools/matching/MatchField.java:90-94 | Exactly the pairs whose field is not checked, with none added. |
| MatchFields.OwnedBy | src/main/java/uk/co/thinkofdeath/patchtools/matching/MatchField.java:100-104 | Exactly the pairs found in the class. |
| MatchFields.WithoutOwner | src/main/java/uk/co/thinkofdeath/patchtools/matching/MatchField.java:72-80 | Exactly the pairs not found in the class. |
| MatchFields.NodesOf | src/main/java/uk/co/thinkofdeath/patchtools/matching/MatchField.java:96-98 | One field per pair, position by position. |
| MatchFields.RemoveFirst | src/main/java/uk/co/thinkofdeath/patchtools/matching/MatchField.java:68-70 | Removes one occurrence of the pair as a multiset, and nothing when it is absent. |
| MatchFields.RemoveFirstAt | src/main/java/uk/co/thinkofdeath/patchtools/matching/MatchField.java:68-70 | The occurrence removed is the first; the pairs before and after it keep their order. |
| MatchFields.OwnedByAppend | src/main/java/uk/co/thinkofdeath/patchtools/matching/MatchField.java:100-104 | Keeping one class's pairs preserves their order. |
| MatchFields.WithoutOwnerAppend | src/main/java/uk/co/thinkofdeath/patchtools/matching/MatchField.java:72-80 | Dropping one class's pairs preserves the order of the rest. |
| MatchFields.DropStep | src/main/java/uk/co/thinkofdeath/patchtools/matching/MatchField.java:76-78 | Removing a pair of the class at the iterator keeps the eventual result. |
| MatchFields.KeepStep | src/main/java/uk/co/thinkofdeath/patchtools/matching/MatchField.java:74-79 | Passing over a pair of another class keeps the eventual result. |
| MatchFields.WithoutOwnerKeepsOthers | src/main/java/uk/co/thinkofdeath/patchtools/matching/MatchField.java:72-104 | After dropping a class's pairs, that class has none, and every other class has exactly its old pairs in the old order. |
| MatchFields.WithoutAbsentOwner | src/main/java/uk/co/thinkofdeath/patchtools/matching/MatchField.java:72-80 | Dropping the pairs of a class that has none changes nothing. |
| MatchFields.UncheckedShrinks | src/main/java/uk/co/thinkofdeath/patchtools/matching/MatchField.java:82-94 | Checking more fields never makes a pair unchecked again. |
| MatchFields.MatchField.constructor | src/main/java/uk/co/thinkofdeath/patchtools/matching/MatchField.java:36-40 | A new field record has the owner, name and descriptor given, no type, no candidates and nothing checked. |
| MatchFields.MatchField.SetType | src/main/java/uk/co/thinkofdeath/patchtools/matching/MatchField.java:46-48 | Sets the type; candidates and checked fields stay. |
| MatchFields.MatchField.AddMatch | src/main/java/uk/co/thinkofdeath/patchtools/matching/MatchField.java:62-66 | A checked field is not recorded. Otherwise the pair is appended, duplicates allowed. Nothing else changes. |
| MatchFields.MatchField.RemoveMatch | src/main/java/uk/co/thinkofdeath/patchtools/matching/MatchField.java:68-70 | The candidates lose the first equal pair. |
| MatchFields.MatchField.RemoveMatchesOf | src/main/java/uk/co/thinkofdeath/patchtools/matching/MatchField.java:72-80 | The in-place iterator loop leaves exactly the pairs of other classes, and afterwards the field no longer uses the class. |
| MatchFields.MatchField.AddChecked | src/main/java/uk/co/thinkofdeath/patchtools/matching/MatchField.java:82-84 | The checked set grows by the field and the candidates stay; no unchecked pair has that field. |
| MatchFields.MatchField.Unchecked | src/main/java/uk/co/thinkofdeath/patchtools/matching/MatchField.java:90-94 | Exactly the candidates whose field is not checked. |
| MatchFields.MatchField.HasUnchecked | src/main/java/uk/co/thinkofdeath/patchtools/matching/MatchField.java:86-94 | Holds iff `Unchecked` is not empty. |
| MatchFields.MatchField.Matches | src/main/java/uk/co/thinkofdeath/patchtools/matching/MatchField.java:96-98 | One field per candidate, in the order they were recorded. |
| MatchFields.MatchField.MatchesOf | src/main/java/uk/co/thinkofdeath/patchtools/matching/MatchField.java:100-104 | Exactly the fields recorded with that class. |
| MatchFields.MatchField.UsesNode | src/main/java/uk/co/thinkofdeath/patchtools/matching/MatchField.java:106-109 | Holds iff `getMatches` of the class is not empty. |
| MatchFields.MatchField.Equals | src/main/java/uk/co/thinkofdeath/patchtools/matching/MatchField.java:147-158 | Two fields are equal iff their owner, name and descriptor are; the type and the candidates do not count. |
| MatchFields.MatchField.HashCode | src/main/java/uk/co/thinkofdeath/patchtools/matching/MatchField.java:160-166 | `hashCode` is the 32-bit value 31·31·(owner's hash) + 31·(hash of the name) + (hash of the descriptor), modulo 2^32, with Java's string hash. |
| MatchFields.EqualsHashCode | src/main/java/uk/co/thinkofdeath/patchtools/matching/MatchField.java:147-166 | Equal fields have equal hash codes, for the same owner hash. |
| FieldInstructions.Mnemonic | src/main/java/uk/co/thinkofdeath/patchtools/instruction/instructions/FieldInstruction.java:138-153 | Only the four field opcodes have a mnemonic. |
| FieldInstructions.MnemonicInjective | src/main/java/uk/co/thinkofdeath/patchtools/instruction/instructions/FieldInstruction.java:138-150 | Each mnemonic names one opcode. |
| FieldInstructions.CheckOwner | src/main/java/uk/co/thinkofdeath/patchtools/instruction/instructions/FieldInstruction.java:58-75 | Passes iff the owner holds in the new scope. A failure binds nothing, and `*` or a weak name with no scope passes unchanged. An unbound weak owner is bound to the instruction's owner. |
| FieldInstructions.CheckName | src/main/java/uk/co/thinkofdeath/patchtools/instruction/instructions/FieldInstruction.java:77-96 | Passes iff the name holds in the new scope. A failure binds nothing, and `*` or a weak name with no scope passes unchanged. An unbound weak name is bound, under (owner, name, descriptor parameter), to the instruction's field. |
| FieldInstructions.Check | src/main/java/uk/co/thinkofdeath/patchtools/instruction/instructions/FieldInstruction.java:52-102 | Anything but a field instruction with this opcode fails and binds nothing. Otherwise it passes iff owner, name and descriptor all hold in the final scope. With unconstrained owner and name the verdict is exactly the corrected `checkTypes`. The owner and field bindings are made under the keys the source uses. |
| FieldInstructions.CreatedName | src/main/java/uk/co/thinkofdeath/patchtools/instruction/instructions/FieldInstruction.java:111-119 | A bound weak name gives its field's name; otherwise the name as written. |
| FieldInstructions.Create | src/main/java/uk/co/thinkofdeath/patchtools/instruction/instructions/FieldInstruction.java:105-130 | Succeeds iff the owner resolves and every weak class of the descriptor is bound. The result is a field instruction with this opcode, the resolved owner, the resolved name and the rewritten descriptor. |
| FieldInstructions.CheckThenCreate | src/main/java/uk/co/thinkofdeath/patchtools/instruction/instructions/FieldInstruction.java:52-130 | A line that matched an instruction creates that same instruction under the scope the match produced. |
| FieldInstructions.Print | src/main/java/uk/co/thinkofdeath/patchtools/instruction/instructions/FieldInstruction.java:133-161 | Another kind of instruction is not printed. An unknown field opcode is an error. Otherwise the text is the mnemonic, then owner, name and descriptor, separated by single spaces. |
| FieldInstructions.PrintThenCheck | src/main/java/uk/co/thinkofdeath/patchtools/instruction/instructions/FieldInstruction.java:52-161 | The printed owner, name and descriptor, read back as parameters, match the instruction and bind nothing. |
| FieldInstructions.Validate | src/main/java/uk/co/thinkofdeath/patchtools/instruction/instructions/FieldInstruction.java:164-171 | Valid iff there are exactly three parameters and the descriptor is valid; a valid line has the parameters `check` and `create` read. |
| FieldInstructions.DescClass | src/main/java/uk/co/thinkofdeath/patchtools/instruction/instructions/FieldInstruction.java:182-194 | The descriptor's class is never `*`. |
| FieldInstructions.DescClassOfDescriptor | src/main/java/uk/co/thinkofdeath/patchtools/instruction/instructions/FieldInstruction.java:182-194 | The descriptor of an object type, or of arrays of one, refers to that class with the weak marker removed. |
| FieldInstructions.ReferencedClasses | src/main/java/uk/co/thinkofdeath/patchtools/instruction/instructions/FieldInstruction.java:174-196 | At most two classes, never `*`. It holds exactly the owner unless `*`, and the descriptor's class. The owner comes first. |
| FieldInstructions.ReferencedFields | src/main/java/uk/co/thinkofdeath/patchtools/instruction/instructions/FieldInstruction.java:199-211 | Empty when owner or name is `*`. Otherwise one new field record with the owner's and field's names, the raw descriptor, its type, and no candidates. |
| PushClassInstructions.Check | src/main/java/uk/co/thinkofdeath/patchtools/instruction/instructions/PushClassInstruction.java:40-58 | Anything but a class constant fails. `*` accepts any class constant. Otherwise the verdict is the corrected `checkTypes` of the parameter read as an internal name, and it passes iff the match holds in the final scope. An unbound weak name is bound to the constant's class. |
| PushClassInstructions.Create | src/main/java/uk/co/thinkofdeath/patchtools/instruction/instructions/PushClassInstruction.java:61-66 | Succeeds iff the weak names are bound, and yields an `ldc` of a String constant, as the source does; the String is the descriptor from the corrected rewrite. |
| PushClassInstructions.CreateCorrected | src/main/java/uk/co/thinkofdeath/patchtools/instruction/instructions/PushClassInstruction.java:61-66 | Corrected: succeeds iff the weak names are bound, and yields an `ldc` of a class constant. |
| PushClassInstructions.CreateNotMatchedAsWritten | src/main/java/uk/co/thinkofdeath/patchtools/instruction/instructions/PushClassInstruction.java:40-66 | As written, after a line matched a class constant, it creates an `ldc` of the descriptor text, which the same line does not match. |
| PushClassInstructions.CheckThenCreateCorrected | src/main/java/uk/co/thinkofdeath/patchtools/instruction/instructions/PushClassInstruction.java:40-66 | Corrected, a line that matched a class constant creates that same constant, and matches it again binding nothing new. |
| PushClassInstructions.Print | src/main/java/uk/co/thinkofdeath/patchtools/instruction/instructions/PushClassInstruction.java:69-76 | Printed iff the instruction loads a class constant, as `push-class` and its internal name. |
| PushClassInstructions.PrintThenCheck | src/main/java/uk/co/thinkofdeath/patchtools/instruction/instructions/PushClassInstruction.java:40-76 | A printed class name, read back as the parameter, matches the constant and binds nothing. |
| PushClassInstructions.Validate | src/main/java/uk/co/thinkofdeath/patchtools/instruction/instructions/PushClassInstruction.java:79-85 | Valid iff there is exactly one parameter and it is a valid class; a valid line has the parameter `check` reads. |
| PushClassInstructions.RootClass | src/main/java/uk/co/thinkofdeath/patchtools/instruction/instructions/PushClassInstruction.java:95-99 | At most one class, present iff the innermost type is an object type. |
| PushClassInstructions.ReferencedClassesAsWritten | src/main/java/uk/co/thinkofdeath/patchtools/instruction/instructions/PushClassInstruction.java:88-100 | As written: empty for `*`; an error exactly when ASM's `getType` throws on the parameter; otherwise at most one class, present iff the parameter, read as a descriptor, has an object type innermost. |
| PushClassInstructions.ReferencedClasses | src/main/java/uk/co/thinkofdeath/patchtools/instruction/instructions/PushClassInstruction.java:88-100 | Corrected: the same, with the parameter read as an internal name. |
| PushClassInstructions.ReferencedClassOfName | src/main/java/uk/co/thinkofdeath/patchtools/instruction/instructions/PushClassInstruction.java:88-100 | Corrected, a class name refers to that class with the weak marker removed, the class `check` binds. |
| PushClassInstructions.ClassNameNotReferencedAsWritten | src/main/java/uk/co/thinkofdeath/patchtools/instruction/instructions/PushClassInstruction.java:95-99 | As written, `push-class ~Foo` and `push-class java/lang/String` refer to no class and `push-class Launcher` throws. Corrected, they refer to `Foo`, `java/lang/String` and `Launcher`. |

## Left out

- ReturnInstruction.java, Patcher.java and the test fixture are not part of this model. The first wraps an ASM library call that is not shown; the second does stream I/O and calls code that is not shown.
- InstructionHandler.java has no behaviour; the two handler modules share its shape (check, create, print, validate, references) by convention.
- `PatchMethod.apply` and `PatchMethod.checkInstructions` (called at PatchClass.java:251 and 471) are not part of this model, and so neither is `checkMethodsInstructions` (PatchClass.java:462-476), which only drives the latter.
- ModifierClass.java is a plain (ident, mode) record; it is the `ModifierClass` datatype of the templates.
- Reading lines with a `BufferedReader`: the class reader takes the lines as a sequence. Turning a line into a command and reading a method's lines are parameters, since `Command` and `PatchMethod`'s reader are not shown.
- `Utils.validateType` and `Utils.validateObjectType` are not shown; they are predicate parameters.
- `PatchScope`, `ClassSet` and the wrappers are not shown. The scope is four maps that never overwrite a binding. A class binding holds the bound class's name. Binding the wrapper of a class missing from the class set (`null` in the source) is modelled as binding its name.
- `FieldWrapper` and `MethodWrapper` bookkeeping (`getFields().add`, `getMethods().add`, `methodWrapper.add`) is not modelled; only the ASM nodes and the scope are.
- `ClassWrapper.getMethods(true)` is modelled as the methods the class itself declares.
- PatchApply.FieldStep: a removed field line whose binding is missing is an error, on the assumption that `getFieldNode(null)` throws; that method is not shown.
- PatchApply.SearchParent: the recursion through superclasses and interfaces has a `fuel` bound; when it runs out, the search reports nothing found. A cyclic hierarchy, where the source recurses without end, is not captured.
- `MatchClass` is not shown; a field's owner is the template class's name, and two owners are equal when their names are.
- `hashCode` of `FieldPair` is not modelled: it combines exactly the two parts `equals` compares, and the nodes' identity hashes are not shown.
- The members below are built on the corrected `checkTypes`, `updatedTypeString` and interface check and scan (`DescriptorMatching.CheckTypes`, `DescriptorMatching.UpdatedTypeString`, `PatchClasses.CheckInterfaces`, `PatchApply.InterfaceStep`), so they state what the program evidently intends; each line names the inputs on which the source does something else. The as-written primitives and the lemmas exhibiting each difference are listed under "## Findings".
- PatchClasses.CheckAttributes: uses the corrected interface check; with `~I` bound to `Foo` and interfaces `Bar`, `Baz`, the source passes and binds `Foo` to `Baz` (PatchClass.java:368-380), while this member fails.
- PatchClasses.CheckField: uses the corrected `checkTypes`: `[[I` against `[I` passes in the source, which compares element types (PatchClass.java:500-501), and fails here; `L~A;` against `LFoo;` binds the key `Foo` in the source (PatchClass.java:490-491) and `A` here, so a later `L~A;` against `LBar;` passes in the source and fails here.
- PatchClasses.CheckFields: inherits the corrected descriptor verdict of `CheckField` on the same inputs.
- PatchClasses.CheckArguments: compares each argument with the corrected `checkTypes`: `[[I` against `[I` passes in the source, which compares element types (PatchClass.java:500-501), and fails here; `L~A;` against `LFoo;` binds the key `Foo` in the source (PatchClass.java:490-491) and `A` here, so a later `L~A;` against `LBar;` passes in the source and fails here.
- PatchClasses.CheckMethod: its descriptor verdict is the corrected one; `([[I)V` against `([I)V` passes in the source and fails here, and the weak-name key differs as for `CheckField`.
- PatchClasses.CheckMethods: inherits the corrected descriptor verdict of `CheckMethod` on the same inputs.
- PatchApply.ApplyInterfaces: uses the corrected interface step; with `~I` bound to `Foo`, `Foo` itself unbound and interfaces `Bar`, `Foo`, the source's scan fails (PatchClass.java:154-166) while this member keeps the list.
- PatchApply.FieldStep: uses the corrected `updatedTypeString`: an added `[[I` is written `[I` by the source (PatchClass.java:309-311) and `[[I` here.
- PatchApply.ApplyAddedField: the added descriptor is the corrected rewrite: an added `[[I` is written `[I` by the source (PatchClass.java:309-311) and `[[I` here.
- PatchApply.ApplyField: its add branch is the corrected rewrite: an added `[[I` is written `[I` by the source (PatchClass.java:309-311) and `[[I` here.
- PatchApply.ApplyFields: inherits the corrected field rewrite: an added `[[I` is written `[I` by the source (PatchClass.java:309-311) and `[[I` here.
- PatchApply.MappedTypes: the corrected rewrite keeps array depth: an argument `[[I` is written `[I` by the source and `[[I` here.
- PatchApply.MappedTypesLiteral: holds of the corrected rewrite only; the source writes a literal `[[I` as `[I`.
- PatchApply.MappedMethodDesc: `([[I)V` is written `([I)V` by the source and `([[I)V` here.
- PatchApply.MappedMethodDescLiteral: holds of the corrected rewrite only; the source writes a literal `([[I)V` as `([I)V`.
- PatchApply.SearchParent: searches with the corrected rewrite of the descriptor, so for `([[I)V` it looks for `([[I)V` where the source looks for `([I)V`.
- PatchApply.ApplyMethod: the new node's descriptor and the search use the corrected rewrite: an added method `([[I)V` gets `([I)V` in the source and `([[I)V` here.
- PatchApply.ApplyMethods: inherits `ApplyMethod`'s corrected rewrite on the same inputs.
- PatchApply.EditClass: inherits the corrected interface step, field rewrite and method rewrite on the inputs listed for `ApplyInterfaces`, `ApplyFields` and `ApplyMethod`.
- PatchApply.Apply: inherits `EditClass`'s corrected primitives on the same inputs.
- FieldInstructions.Check: the descriptor verdict is the corrected `checkTypes`: `[[I` against `[I` passes in the source, which compares element types (PatchClass.java:500-501), and fails here; `L~A;` against `LFoo;` binds the key `Foo` in the source (PatchClass.java:490-491) and `A` here, so a later `L~A;` against `LBar;` passes in the source and fails here.
- FieldInstructions.Create: the descriptor is the corrected rewrite: `get-field Foo bar [[I` creates `[I` in the source and `[[I` here.
- FieldInstructions.CheckThenCreate: holds of the corrected pair; in the source a line with `L~A;` matched against `LFoo;` binds only `Foo`, so `create` looks `A` up, finds nothing and throws a `NullPointerException` (PatchClass.java:304-305).
- PushClassInstructions.Check: the verdict is the corrected `checkTypes`; `push-class [[I` against the constant `[I` passes in the source and fails here, and `push-class ~A` binds the key of the constant's class name in the source and `A` here.
- PushClassInstructions.Create: pushes a String as the source does, but its text is the corrected rewrite: `push-class [[I` gives `"[I"` in the source and `"[[I"` here.
- AsmTypes.GetType: on the inputs of `GetTypeThrows` (the empty string, `[`s with nothing after them, `L` with no `;`) ASM 5 throws; `GetType` returns a method type there. Only `PushClassInstructions.ReferencedClassesAsWritten` reports the error; the other callers go on with that method type where the source throws.
- AsmTypes.GetObjectType: on the empty internal name ASM 5 throws (it reads the first character); the model returns `Object("")`, so `PushClassInstructions.Check` and `Create` go on with that type where the source throws (PushClassInstruction.java:54, :63).
- MatchFields.StringHash: sums the string's characters as Unicode scalar values, while Java sums UTF-16 code units; the two agree on text inside the Basic Multilingual Plane and differ on characters outside it, which Java counts as two surrogates.
- PushClassInstructions.ReferencedClassesAsWritten: the error is reported as an `Err` named after the exception, not raised.
- PatchClasses.CheckSupers: when the superclass is not in the class set the source binds a `null` wrapper and then throws a `NullPointerException` at PatchClass.java:352; the model binds the name and goes on.
- PatchClasses.CheckInterfaces: when an interface is not in the class set the source binds a `null` wrapper and then throws a `NullPointerException` at PatchClass.java:375; the model binds the name and goes on.
- FieldInstructions.CheckName: when the instruction's owner is not in the class set the source throws a `NullPointerException` at FieldInstruction.java:85-86; the model binds the field key and goes on.
- FieldInstructions.CheckOwner: when the instruction's owner is not in the class set the source binds a `null` wrapper (FieldInstruction.java:65); the model binds the name.
- InsnUtils.ParseInt: digits other than ASCII `0`-`9`, which `Integer.parseInt` also accepts, are rejected.
- Exceptions are `Err` results carrying the exception's name. A `StringBuilder` that a method appends to is modelled as the text appended.
- The `WeakHashMap` lifetime of printed label names is not modelled; the names are a plain per-method map.
- Field instructions carry the opcode, owner, name and descriptor only; other instruction kinds carry only their opcode.

## Findings

| source | as written | input that shows it | evidently intended | confidence | as-written member | corrected member |
|---|---|---|---|---|---|---|
| src/main/java/uk/co/thinkofdeath/patchtools/patch/PatchClass.java:489-492 | An unbound weak class in a descriptor is bound under the concrete class's name, not under the weak name | `~A` against `Foo`, then `~A` against `Bar`: both pass | Bind the weak name, so later uses must agree | high, not executed | DescriptorMatching.WeakNameRebindsAsWritten | DescriptorMatching.CheckTypesDeterminesMatch |
| src/main/java/uk/co/thinkofdeath/patchtools/patch/PatchClass.java:500-501 | Arrays are compared by `getElementType`, which strips all dimensions | `[[I` matches `[I` | Compare one level down, so dimensions must agree | medium, not executed | DescriptorMatching.ArrayDepthIgnoredAsWritten | DescriptorMatching.CheckTypesSameDepth |
| src/main/java/uk/co/thinkofdeath/patchtools/patch/PatchClass.java:309-311 | Rewriting an array writes one `[` and continues under all dimensions | `[[I` is rewritten to `[I` | Keep every dimension | medium, not executed | DescriptorMatching.ArrayDepthLostAsWritten | DescriptorMatching.UpdatedTypeStringLiteral |
| src/main/java/uk/co/thinkofdeath/patchtools/patch/PatchClass.java:368-380 | The interface check reassigns the weak name to the found class and looks that up again for the next interface | `~I` bound to `Foo`, interfaces `Bar`, `Baz`: passes, and binds `Foo` to `Baz` | Resolve the weak name once and look for it among the interfaces | high, not executed | PatchClasses.InterfaceRebindAsWritten | PatchClasses.CheckInterfaces |
| src/main/java/uk/co/thinkofdeath/patchtools/patch/PatchClass.java:154-166 | `apply` repeats that pattern with an unbound lookup failing | With `~I` bound to `Foo`, `Foo` itself unbound, and interfaces `Bar`, `Foo`: the patch fails. The as-written `checkAttributes` scan binds `Foo` before `apply` whenever it passes (`PatchApply.InterfaceScanThenApplyAsWritten`), so the failure needs `apply` to start from a scope the match did not build; `MatchGenerator`, which builds that scope, is not part of this model | Succeed, since `Foo` is an interface | low, not executed | PatchApply.InterfaceApplyRejectsAsWritten | PatchApply.InterfacesAfterHold |
| src/main/java/uk/co/thinkofdeath/patchtools/instruction/instructions/PushClassInstruction.java:62-65 | `create` pushes the rewritten descriptor as a String constant | `push-class java/lang/String` creates `ldc "Ljava/lang/String;"` | Push the class constant that `check` and `print` handle | medium, not executed | PushClassInstructions.CreateNotMatchedAsWritten | PushClassInstructions.CheckThenCreateCorrected |
| src/main/java/uk/co/thinkofdeath/patchtools/instruction/instructions/PushClassInstruction.java:95 | `getReferencedClasses` reads the class parameter as a descriptor, but `check` reads it as an internal name | `push-class ~Foo` refers to no class | Read it as an internal name, giving `Foo` | medium, not executed | PushClassInstructions.ClassNameNotReferencedAsWritten | PushClassInstructions.ReferencedClassOfName |
