# J-- compiler back-end, modelled in Dafny

This project models the back-end of a compiler for J--, a small subset of
Java. The compiler translates a J-- class into Jasmin assembly for the JVM.
The back-end has three passes over the parsed syntax tree:

- **Symbol tables** (`descriptors.dfy`, `symbol_table.dfy`). A variable
  descriptor holds a type and an initialised flag. A method descriptor holds
  a return type, ordered parameters and a map of locals. An import descriptor
  holds static and method flags, parameter descriptors and a return type. The
  symbol table holds fields, overload groups of methods and groups of imports,
  plus lookups and overload-consistency checks. These are Dafny classes whose
  methods update their fields in place.
- **Symbol-table builder** (`builder.dfy`). A class that walks the imports,
  fields and methods and fills a fresh table. It reports duplicate fields,
  locals and parameters, and incompatible overloads, as diagnostics.
- **Semantic analyser** (`analyser.dfy`). Computes the type an expression
  visit yields and the `SEMANTIC ERROR` diagnostics it prints. When a visit
  throws, the model yields only the exception (see "## Left out").
  - `AsWritten`: the program's own rules. A name yields its variable
    descriptor, so every operator's `(String)` cast of it throws.
  - `Corrected`: the evidently intended rules. This is proved to accept
    exactly the well-typed expressions.
- **Code generator.**
  - `codegen.dfy`: a class with the source's fields. Its fields are the
    instruction buffer, the output file as a list of lines, the stack counter
    and `maxStack`, the three label counters, and the variable-slot map.
  - `emit.dfy`, `stmt.dfy`, `methods.dfy`: pure functions stating what each
    visit appends and how it changes the counters. Every visitor method of
    the class is proved to do exactly that.
  - `jasmin.dfy`: instructions and type descriptors.
  - `slots.dfy`: local-variable slots.
  - `labels.dfy`, `block_labels.dfy`: label discipline.
  - `machine.dfy`, `operators.dfy`: a small operand-stack machine that runs
    the boolean operators' code.

The Jasmin file the generator writes is modelled as a sequence of lines, and
the `SEMANTIC ERROR` lines the builder and the analyser print as a sequence
of diagnostics. The generator's error-stream output and all stack traces are
not modelled (see "## Left out").

## Model

| member | source | states |
|---|---|---|
| Descriptors.VariableDescriptor.constructor | src/SymbolTable/VariableDescriptor.java:15-18 | a new descriptor has the given type and is not initialised |
| Descriptors.VariableDescriptor.SetInitialised | src/SymbolTable/VariableDescriptor.java:43-45 | the flag becomes the argument and the type is unchanged |
| Descriptors.VariableDescriptor.Equals | src/SymbolTable/VariableDescriptor.java:48-57 | equal exactly when the other object is non-null and has the same type |
| Descriptors.EqualsIsTypeEquality | src/SymbolTable/VariableDescriptor.java:48-57 | `equals` is reflexive, symmetric and transitive; different types are never equal |
| Descriptors.ListEqualsIffSameTypes | project/src/SymbolTable/MethodDescriptor.java:107-117 | two parameter lists are element-wise `equals` exactly when their type lists are equal |
| Descriptors.FindParam | project/src/SymbolTable/MethodDescriptor.java:50-59 | a parameter is found exactly when one has that name, and the one found has it |
| Descriptors.MethodDescriptor.constructor | project/src/SymbolTable/MethodDescriptor.java:36-40 | the return type is recorded; no parameters and no locals |
| Descriptors.MethodDescriptor.HasParameter | project/src/SymbolTable/MethodDescriptor.java:50-59 | true exactly when the name is among the parameter names |
| Descriptors.MethodDescriptor.LookupVariable | project/src/SymbolTable/MethodDescriptor.java:50-59 | locals shadow parameters; a name that is neither gives the "not defined" error |
| Descriptors.MethodDescriptor.AddParameter | project/src/SymbolTable/MethodDescriptor.java:68-76 | a repeated name is refused and changes nothing; a new name is appended in order; names stay distinct |
| Descriptors.MethodDescriptor.AddVariable | project/src/SymbolTable/MethodDescriptor.java:85-90 | a repeated local is refused and changes nothing; a new one is added with its type; parameters unchanged |
| Descriptors.MethodDescriptor.CheckEqualMethod | project/src/SymbolTable/MethodDescriptor.java:107-117 | fails with the parameter-list message exactly when the types equal; else with the return-type message exactly when returns differ; passes otherwise |
| Descriptors.MethodDescriptor.GetStringParameters | project/src/SymbolTable/MethodDescriptor.java:162-169 | the parameter types, one per parameter, in declaration order |
| Descriptors.ImportDescriptor.constructor | project/src/SymbolTable/ImportDescriptor.java:37-44 | flags recorded; no parameters; return type "void" for a method import, none otherwise |
| Descriptors.ImportDescriptor.AddParameter | project/src/SymbolTable/ImportDescriptor.java:50-55 | appends a parameter of that type only to a method import |
| Descriptors.ImportDescriptor.SetReturnType | project/src/SymbolTable/ImportDescriptor.java:62-67 | sets the return type only of a method import |
| Descriptors.ImportDescriptor.CheckEqualImport | project/src/SymbolTable/ImportDescriptor.java:102-109 | same three-way verdict as for methods, with the import message |
| Descriptors.ImportDescriptor.GetStringParameters | project/src/SymbolTable/ImportDescriptor.java:149-155 | the parameter types in order |
| Symbols.FirstMethod | project/src/SymbolTable/SymbolTable.java:78-98 | the index of the first overload with exactly these parameter types, none before it matching |
| Symbols.FirstImport | project/src/SymbolTable/SymbolTable.java:109-129 | the index of the first import with exactly these parameter types |
| Symbols.MethodImports | project/src/SymbolTable/SymbolTable.java:260-262 | keeps exactly the method imports of a group |
| Symbols.MethodImportsSkipNonMethods | project/src/SymbolTable/SymbolTable.java:260-262 | a non-method import does not enter the checked list |
| Symbols.MethodImportsSnoc | project/src/SymbolTable/SymbolTable.java:260-262 | an import appended to a group is appended to the checked list exactly when it is a method, after the earlier ones |
| Symbols.SymbolTable.constructor | project/src/SymbolTable/SymbolTable.java:46-52 | an empty table with empty class names |
| Symbols.SymbolTable.LookupAttribute | project/src/SymbolTable/SymbolTable.java:62-67 | found exactly when a field has the name, and it is that field; else "not defined" |
| Symbols.SymbolTable.LookupMethod | project/src/SymbolTable/SymbolTable.java:78-98 | found exactly when some overload has these parameter types, and it is the first such; else the "method not defined" error |
| Symbols.SymbolTable.LookupImport | project/src/SymbolTable/SymbolTable.java:109-129 | the same for import groups |
| Symbols.SymbolTable.AddVariable | project/src/SymbolTable/SymbolTable.java:138-143 | a repeated field is refused and changes nothing; a new one is added; methods and imports unchanged |
| Symbols.SymbolTable.AddMethod | project/src/SymbolTable/SymbolTable.java:150-156 | appends a fresh descriptor to the name's group, creating the group if needed; nothing else changes |
| Symbols.SymbolTable.AddMethodParameter | project/src/SymbolTable/SymbolTable.java:167-173 | adds the parameter to the group's last overload, with that descriptor's verdict |
| Symbols.SymbolTable.AddMethodVariable | project/src/SymbolTable/SymbolTable.java:184-190 | adds the local to the group's last overload, with that descriptor's verdict |
| Symbols.SymbolTable.CheckEqualMethods | project/src/SymbolTable/SymbolTable.java:200-215 | passes exactly when every pair of overloads is compatible; a failure names the first incompatible pair in loop order |
| Symbols.SymbolTable.AddImport | project/src/SymbolTable/SymbolTable.java:223-229 | appends a fresh import descriptor to the id's group |
| Symbols.SymbolTable.AddImportParameter | project/src/SymbolTable/SymbolTable.java:236-238 | adds a parameter type to the group's last import |
| Symbols.SymbolTable.SetImportReturnType | project/src/SymbolTable/SymbolTable.java:245-247 | sets the return type of the group's last import |
| Symbols.SymbolTable.CheckEqualImports | project/src/SymbolTable/SymbolTable.java:257-275 | passes exactly when the method imports are pairwise compatible; a failure is the first incompatible pair |
| Builder.DeclMap | src/SymbolTableBuilder.java:74-102 | its keys are exactly the declared names |
| Builder.DeclMapFacts | src/SymbolTableBuilder.java:74-102 | each declared name maps to the type of its first declaration |
| Builder.DeclMapSnoc | src/SymbolTableBuilder.java:74-102 | a later declaration of a taken name does not change its type |
| Builder.ParamDiags | src/SymbolTableBuilder.java:131-145 | at most one diagnostic per parameter |
| Builder.ParamDiagsSnoc | src/SymbolTableBuilder.java:131-145 | a parameter is reported exactly when its name was already taken |
| Builder.VarDiags | src/SymbolTableBuilder.java:74-102 | at most one diagnostic per field or local |
| Builder.VarDiagsSnoc | src/SymbolTableBuilder.java:74-102 | a field or local is reported exactly when its name was already taken |
| Builder.FirstDeclsFacts | src/SymbolTableBuilder.java:131-145 | the kept parameters have distinct names, cover every declared name and keep order |
| Builder.FirstDeclsSnoc | src/SymbolTableBuilder.java:131-145 | a parameter is kept exactly when its name is new |
| Builder.ImportTypesFacts | src/SymbolTableBuilder.java:55-64 | one parameter type per type child; the return type is the default or some child's |
| Builder.ImportChildStep | src/SymbolTableBuilder.java:55-64 | each child adds a parameter type or replaces the return type |
| Builder.ImportsNamedFacts | src/SymbolTableBuilder.java:43-66 | each declaration grouped under an id has that id and comes from the list |
| Builder.ImportsNamedInOrder | src/SymbolTableBuilder.java:43-66 | the group under an id is exactly the declarations with that id, in program order: every one of them is in it, at increasing positions |
| Builder.MethodsNamedFacts | src/SymbolTableBuilder.java:105-123 | each method grouped under a name has that key and comes from the list |
| Builder.MethodsNamedInOrder | src/SymbolTableBuilder.java:105-123 | the group under a name is exactly the methods with that key, in program order: every one of them is in it, at increasing positions |
| Builder.BuiltGroupConsistent | project/src/SymbolTable/SymbolTable.java:200-215 | a group built from declarations passes the overload check exactly when the declarations are pairwise compatible |
| Builder.SymbolTableBuilder.constructor | src/SymbolTableBuilder.java:10-13 | starts from an empty table and no diagnostics |
| Builder.SymbolTableBuilder.VisitImport | src/SymbolTableBuilder.java:43-66 | adds one import descriptor under the id; fields and methods unchanged |
| Builder.SymbolTableBuilder.VisitImportAfter | src/SymbolTableBuilder.java:43-66 | the import groups gain the id; other groups keep what they held |
| Builder.SymbolTableBuilder.VisitImportChildren | src/SymbolTableBuilder.java:55-64 | the descriptor's parameter and return types are those the children declare, for a method import only |
| Builder.SymbolTableBuilder.VisitImportChild | src/SymbolTableBuilder.java:55-64 | one child adds a parameter type or sets the return type |
| Builder.SymbolTableBuilder.VisitField | src/SymbolTableBuilder.java:74-102 | a new field is added with its type; a duplicate is reported and changes nothing |
| Builder.SymbolTableBuilder.VisitLocal | src/SymbolTableBuilder.java:74-102 | a new local is added to the method; a duplicate is reported |
| Builder.SymbolTableBuilder.VisitVarDeclaration | src/SymbolTableBuilder.java:74-102 | outside a method, adds the field unless its name is taken, and then reports "already defined" once; inside a method, the same on that method's locals, leaving its parameters alone |
| Builder.SymbolTableBuilder.VisitMethodParam | src/SymbolTableBuilder.java:131-145 | a new parameter is appended; a duplicate is reported |
| Builder.SymbolTableBuilder.VisitParams | src/SymbolTableBuilder.java:105-123 | the descriptor holds the first declaration of each parameter name, in order; one diagnostic per repeat |
| Builder.SymbolTableBuilder.VisitLocals | src/SymbolTableBuilder.java:105-123 | the descriptor's locals are the first declaration of each name; one diagnostic per repeat |
| Builder.SymbolTableBuilder.VisitRegularMethod | src/SymbolTableBuilder.java:105-123 | the name's group gains one overload describing the method |
| Builder.SymbolTableBuilder.CheckOverloads | src/SymbolTableBuilder.java:105-123 | passes exactly when the group's overloads are pairwise compatible |
| Builder.SymbolTableBuilder.DeclareMethod | src/SymbolTableBuilder.java:105-123 | the group gains the new descriptor; the rest of the table is unchanged |
| Builder.SymbolTableBuilder.VisitMainMethod | src/SymbolTableBuilder.java:148-169 | the "main" group gains an overload with one `String[]` parameter and the locals |
| Builder.SymbolTableBuilder.VisitMethod | src/SymbolTableBuilder.java:105-155 | regular or main method: its key's group gains one descriptor |
| Builder.SymbolTableBuilder.VisitImports | src/SymbolTableBuilder.java:43-66 | import keys grow by the ids; for a fresh table each group describes the declarations with its id, in order |
| Builder.SymbolTableBuilder.VisitFields | src/SymbolTableBuilder.java:74-102 | field keys grow by the names; for a fresh table the types are the first declarations and the diagnostics are the repeats |
| Builder.SymbolTableBuilder.VisitMethods | src/SymbolTableBuilder.java:105-155 | method keys grow by the method names; each group describes its declarations; the reports are the overload clashes |
| Builder.SymbolTableBuilder.Build | src/SymbolTableBuilder.java:15-20 | the whole pass: imports, fields and methods as above; diagnostics are the field repeats followed by the per-method reports |
| Analyser.AsString | src/SemanticAnalyser.java:147-148 | the `(String)` cast throws exactly on a descriptor; null casts to null |
| Analyser.VarType | src/SemanticAnalyser.java:251-269 | a name has no type exactly when it is neither a local, a parameter nor a field; locals come first |
| Analyser.OperandCheck | src/SemanticAnalyser.java:161-176 | null operand crashes; at most one diagnostic, naming the left operand when it is wrong, else the right |
| Analyser.Binary | src/SemanticAnalyser.java:143-158 | a descriptor operand is a cast crash; otherwise the operator yields its type, and reports nothing exactly when both operands have the wanted type cleanly |
| Analyser.CorrectedSynthIffWellTyped | src/SemanticAnalyser.java:143-318 | with the intended rules, an expression gets type `ty` with no diagnostics exactly when it is well typed at `ty` |
| Analyser.AtMostOneReportPerNode | src/SemanticAnalyser.java:143-318 | no operator or name reports more than once |
| Analyser.AsWrittenCrashesOnNameOperands | src/SemanticAnalyser.java:251-269 | as written, a well-typed expression is analysed without a crash exactly when no operator has a name as a direct operand; otherwise it throws ClassCastException |
| Analyser.AsWrittenRejectsEveryComparison | src/SemanticAnalyser.java:161-176 | as written, every well-typed `<` without name operands reports its left operand as not boolean |
| Analyser.AsWrittenRejectsEveryArithmetic | src/SemanticAnalyser.java:179-248 | as written, every well-typed arithmetic without name operands reports a diagnostic |
| Analyser.AnalyseBody | src/SemanticAnalyser.java:50-71 | succeeds exactly when every expression statement's visit succeeds |
| Analyser.AnalyseBodySnoc | src/SemanticAnalyser.java:50-71 | statements are visited in order: the first exception ends the visit, otherwise the diagnostics are the expression statements' diagnostics in order |
| Analyser.AnalyseMethod | src/SemanticAnalyser.java:50-71 | not found exactly when no overload has the declared parameter types; otherwise the result is the diagnostics, or the exception, of the body analysed against the first such overload |
| Analyser.MethodDiagsFacts | src/SemanticAnalyser.java:50-71 | `main` and a method without a matching overload add nothing, any other method adds its body's diagnostics, and a method throws exactly when its analysis does |
| Analyser.AnalyseMethodsOkIff | src/SemanticAnalyser.java:40-42 | the pass over the methods throws exactly when the analysis of one of them does |
| Analyser.AnalyseMethodsSnoc | src/SemanticAnalyser.java:40-42 | methods are analysed in order: the first exception ends the pass, otherwise each method's diagnostics follow those of the methods before it |
| Analyser.OnlyExpressionStatementsReport | src/SemanticAnalyser.java:118-140 | assignments, ifs, whiles and returns are not checked and report nothing |
| Analyser.MainIsNotAnalysed | src/SemanticAnalyser.java:98-100 | a class of only `main` methods gives no diagnostics |
| Jasmin.ConvertTypeAsWritten | src/CodeGenerator.java:203-220 | as written, a type has a descriptor exactly when it is void, int, boolean or int[] |
| Jasmin.ClassParamsCollideAsWritten | src/CodeGenerator.java:228-236 | as written, parameter lists of two different classes convert to the same text "null" |
| Jasmin.ConvertType | src/CodeGenerator.java:203-220 | agrees with the source on primitive types and gives `L<name>;` for a class |
| Jasmin.ConvertParams | src/CodeGenerator.java:228-236 | empty exactly for no parameters |
| Jasmin.ConvertTypePrefixFree | src/CodeGenerator.java:203-220 | no type descriptor is a proper prefix of another |
| Jasmin.ConvertParamsInjective | src/CodeGenerator.java:228-236 | different parameter lists give different descriptors |
| Jasmin.KindOf | src/CodeGenerator.java:243-255 | "i" exactly for int and boolean, "" exactly for void, "a" otherwise |
| Jasmin.PushInt | src/CodeGenerator.java:825-839 | pushes the literal's value; `bipush` exactly when it fits a signed byte |
| Jasmin.PushIntAsWrittenOverflows | src/CodeGenerator.java:825-839 | as written, every literal from 128 to 200 uses `bipush`, out of its range; the corrected push uses `ldc_w` |
| Jasmin.LabelNameInjective | src/CodeGenerator.java:967-1156 | different labels print differently |
| Jasmin.SlotTextInjective | src/CodeGenerator.java:778-783 | different slots print differently; the `_n` short form exactly for slots 0-3 |
| Jasmin.Lines | src/CodeGenerator.java:188-196 | one output line per buffered instruction, in order |
| Slots.AddSlotKeeps | src/CodeGenerator.java:118-131 | a new name takes the next slot; a known name keeps its slot and nothing changes |
| Slots.AddSlotDense | src/CodeGenerator.java:118-131 | slots stay distinct and below the next free index |
| Slots.AllocateKeeps | src/CodeGenerator.java:410-432 | allocating a declaration list adds exactly its names and keeps earlier slots |
| Slots.AllocateDense | src/CodeGenerator.java:410-432 | slots stay distinct and below the next free index |
| Slots.AllocateFirst | src/CodeGenerator.java:118-131 | a name new to the map gets the type of its first declaration |
| Slots.MethodVarsDense | src/CodeGenerator.java:375-432 | a method's slot map covers its parameters and locals, densely from 1 |
| Slots.SlotsBelowLimit | src/CodeGenerator.java:278-328 | every slot a method uses is below its `.limit locals` |
| Slots.DescribedSlots | src/CodeGenerator.java:278-328 | the descriptor the builder records for a method counts its distinct parameter names (the argument array for `main`) plus its distinct local names |
| Slots.BuiltSlotsBelowLimit | src/CodeGenerator.java:278-328 | for a method looked up with the builder's descriptor, every slot it uses is below its `.limit locals` |
| Emit.FirstSig | project/src/SymbolTable/SymbolTable.java:78-98 | the first overload with exactly the given parameter types |
| Emit.Resolve | src/CodeGenerator.java:584-663 | resolves exactly when the group has an overload with those types, and returns it |
| Emit.CallLookupCrashesAsWritten | src/CodeGenerator.java:263-271 | as written, every method call's first lookup throws, whatever the table holds, even where the lookup on the call's argument types finds the overload |
| Emit.LoadName | src/CodeGenerator.java:769-822 | a local, parameter or field pushes one value; an unknown name pushes nothing; no labels |
| Emit.NewObj | src/CodeGenerator.java:842-867 | `new`, `dup`, `<init>`: one value pushed |
| Emit.InvokeCode | src/CodeGenerator.java:584-663 | an invoke pops its arguments and pushes one value unless it returns void |
| Emit.ThisTarget | src/CodeGenerator.java:482-523 | `this.m()` goes to the superclass import exactly when there is a superclass that has it, else to the class's own method |
| Emit.ThisCallDroppedAsWritten | src/CodeGenerator.java:482-501 | as written, a class with a superclass drops a call to its own method |
| Emit.ReceiverCode | src/CodeGenerator.java:464-580 | loading a receiver uses no labels |
| Emit.CallCode | src/CodeGenerator.java:464-667 | an unresolved call emits nothing and uses no labels; a resolved one uses its arguments' labels |
| Emit.ArithCode | src/CodeGenerator.java:870-910 | operands then one arithmetic instruction: the stack effect is one less than the operands' |
| Emit.AndCode | src/CodeGenerator.java:1044-1068 | `&&` consumes one label number plus its operands' and leaves one value |
| Emit.LtCode | src/CodeGenerator.java:1071-1105 | `<` consumes one label number plus its operands' and leaves one value |
| Emit.LtZeroCode | src/CodeGenerator.java:1071-1105 | when the right operand is the literal 0 it is not emitted, and `iflt` tests the left |
| Emit.NotCode | src/CodeGenerator.java:1135-1156 | `!` consumes one label number plus its operand's and leaves one value |
| Emit.TailCode | src/CodeGenerator.java:1044-1156 | the shared push-constant-and-jump tail leaves one value |
| Emit.AndLayout | src/CodeGenerator.java:1044-1068 | the `&&` code is left, test, right, test, then the tail |
| Emit.LtLayout | src/CodeGenerator.java:1071-1105 | the `<` code is left, right, `if_icmplt`, then the tail |
| Emit.LtZeroLayout | src/CodeGenerator.java:1071-1105 | the `< 0` code is left, `iflt`, then the tail |
| Emit.NotLayout | src/CodeGenerator.java:1135-1156 | the `!` code is operand, `ifne`, then the tail |
| Emit.EmitExpr | src/CodeGenerator.java:769-1156 | every expression's code is well formed: its peak covers its effect |
| Emit.ExprCounts | src/CodeGenerator.java:769-1156 | an expression consumes one label number per logical operator, and a resolved one leaves exactly one value |
| Emit.ArgsCounts | src/CodeGenerator.java:584-663 | resolved arguments leave one value each |
| Emit.ExprLabelled | src/CodeGenerator.java:1044-1156 | an expression's labels are numbered from the counter's value, each defined once, every jump target defined |
| Emit.CallParts | src/CodeGenerator.java:464-667 | a call's code is its arguments' code followed by the dispatch |
| Emit.AndParts | src/CodeGenerator.java:1044-1068 | `&&` takes its number first, then numbers its operands |
| Emit.LtParts | src/CodeGenerator.java:1071-1105 | `<` takes its number first; a literal-zero right operand selects the `iflt` form |
| Emit.NotParts | src/CodeGenerator.java:1135-1156 | `!` takes its number first, then numbers its operand |
| Statements.AssignCode | src/CodeGenerator.java:692-766 | an assignment with resolved parts leaves the stack as it found it, or one higher for an element of a field array |
| Statements.StoreElement | src/CodeGenerator.java:692-766 | `a[i] = v` stores with `iastore`; a field array leaves the extra `this` |
| Statements.ElementTarget | src/CodeGenerator.java:692-766 | the array reference and the index are on the stack before the value |
| Statements.ArrayRef | src/CodeGenerator.java:769-822 | a local array is one load; a field array is `aload_0`, `getfield` |
| Statements.StoreName | src/CodeGenerator.java:719-724 | `x = v` leaves the stack as it found it |
| Statements.NameRecv | src/CodeGenerator.java:692-766 | storing to a field first pushes `this` |
| Statements.NameStore | src/CodeGenerator.java:719-724 | a local store pops one value; `putfield` pops two |
| Statements.Apply | src/CodeGenerator.java:137-150 | emitting only appends, counters only grow, `maxStack` only grows |
| Statements.ApplyExpr | src/CodeGenerator.java:769-1156 | a resolved expression raises the stack counter by exactly one |
| Statements.Clear | src/CodeGenerator.java:157-162 | from a counter that is not negative, `clearStack` emits one `pop` per value and leaves 0; from a negative counter the generator aborts (`None`) |
| Statements.EmitStmt | src/CodeGenerator.java:692-1041 | a resolved statement from an empty stack leaves at most one value |
| Statements.IfStmt | src/CodeGenerator.java:967-1017 | a resolved if-else leaves an empty stack |
| Statements.WhileStmt | src/CodeGenerator.java:1020-1041 | a resolved while leaves an empty stack |
| Statements.EmitBlock | src/CodeGenerator.java:440-447 | a resolved block leaves an empty stack; a non-empty block always ends at 0 |
| Steps.ApplyThen | src/CodeGenerator.java:168-170 | appending two pieces one after the other is appending their concatenation |
| Steps.AndSteps | src/CodeGenerator.java:1044-1068 | the visit's steps together emit the `&&` code |
| Steps.LtSteps | src/CodeGenerator.java:1071-1105 | the visit's steps together emit the `<` code |
| Steps.NotSteps | src/CodeGenerator.java:1135-1156 | the visit's steps together emit the `!` code |
| BlockLabels.BlockLabelled | src/CodeGenerator.java:967-1041 | a block keeps every label unique and defines every jump target once it closes |
| BlockLabels.IfLabels | src/CodeGenerator.java:967-1017 | an if-else defines its `else` and `endif` labels once each |
| BlockLabels.WhileLabels | src/CodeGenerator.java:1020-1041 | a while defines its loop and end labels once each |
| Labels.UniqueJoin | src/CodeGenerator.java:967-1156 | code pieces with disjoint label ranges join into code with unique labels |
| Labels.Join | src/CodeGenerator.java:967-1156 | consecutive well-labelled pieces join into well-labelled code |
| Labels.Enclose | src/CodeGenerator.java:1044-1156 | a body with one open jump, closed by the tail, is well labelled |
| Machine.NotRuns | src/CodeGenerator.java:1135-1156 | running `ifne` and the tail on a value leaves 1 exactly when the value was 0 |
| Machine.AndRuns | src/CodeGenerator.java:1044-1068 | running the `&&` code, with a constant right operand, leaves 1 exactly when both operands are non-zero |
| Machine.LtRuns | src/CodeGenerator.java:1071-1105 | running the `<` code leaves 1 exactly when the left is below the right |
| Machine.LtZeroRuns | src/CodeGenerator.java:1071-1105 | running the `< 0` code leaves 1 exactly when the value is negative |
| OperatorSemantics.NotSemantics | src/CodeGenerator.java:1135-1156 | the emitted `!` computes boolean negation |
| OperatorSemantics.AndSemantics | src/CodeGenerator.java:1044-1068 | the emitted `&&` computes the conjunction |
| OperatorSemantics.LtSemantics | src/CodeGenerator.java:1071-1105 | the emitted `<` computes the comparison |
| OperatorSemantics.LtZeroSemantics | src/CodeGenerator.java:1071-1105 | the emitted `< 0` computes the sign test |
| Methods.FieldLines | src/CodeGenerator.java:345-372 | one `.field` line per field, in order |
| Methods.MethodRun | src/CodeGenerator.java:375-461 | a method run that does not exit empties the buffer and keeps the counters growing |
| Methods.MethodRunIs | src/CodeGenerator.java:410-461 | a found method writes its header, limits, buffered code and `.end method` |
| Methods.ClassRun | src/CodeGenerator.java:345-372 | methods in order, each from the previous one's state; the first failed lookup stops the run |
| Methods.ClassRunStep | src/CodeGenerator.java:345-372 | one method, then the rest unless that method exited |
| Methods.ClassTextIs | src/CodeGenerator.java:345-372 | the class file is the head, the methods' lines and the constructor unless a method exited |
| Methods.ClassRunTerminates | src/CodeGenerator.java:157-162 | a class whose methods are found and resolve never loops in `clearStack` and ends with an empty stack |
| Methods.UnknownSumPops | src/CodeGenerator.java:870-877 | the sum of two names that are neither variables nor fields loads nothing but pops one |
| Methods.NegativeStatementAborts | src/CodeGenerator.java:157-162 | a block whose first expression statement leaves the counter negative aborts at the following `clearStack` |
| Methods.UndeclaredOperandsAbort | src/CodeGenerator.java:410-461 | the generation of `int f() { x + y; }` with `x` and `y` undeclared aborts |
| Methods.MethodLabels | src/CodeGenerator.java:410-461 | a method's code defines each label once and every label it jumps to |
| Generator.CodeGenerator.constructor | src/CodeGenerator.java:78-103 | empty buffer, output, slot map and counters |
| Generator.CodeGenerator.AddVariable | src/CodeGenerator.java:118-131 | updates the slot map as `AddSlot` says and reports whether the name was new |
| Generator.CodeGenerator.AddVariables | src/CodeGenerator.java:410-432 | the slot map and next index are those `Allocate` gives |
| Generator.CodeGenerator.IncrementStack | src/CodeGenerator.java:137-141 | the counter grows by one and `maxStack` follows it |
| Generator.CodeGenerator.DecrementStack | src/CodeGenerator.java:148-150 | the counter drops by the amount; nothing else changes |
| Generator.CodeGenerator.Buffer | src/CodeGenerator.java:168-170 | appends one instruction to the buffer |
| Generator.CodeGenerator.ClearStack | src/CodeGenerator.java:157-162 | the state `Clear` gives: one `pop` per value, counter 0 |
| Generator.CodeGenerator.VisitExpr | src/CodeGenerator.java:769-1156 | the buffer and counters change exactly as `EmitExpr` says |
| Generator.CodeGenerator.VisitName | src/CodeGenerator.java:769-822 | the state changes exactly as `LoadName` says |
| Generator.CodeGenerator.VisitArith | src/CodeGenerator.java:870-910 | the state changes exactly as the arithmetic emission says |
| Generator.CodeGenerator.VisitNew | src/CodeGenerator.java:842-867 | the state changes exactly as `NewObj` says |
| Generator.CodeGenerator.VisitAnd | src/CodeGenerator.java:1044-1068 | the state changes exactly as the `&&` emission says |
| Generator.CodeGenerator.VisitLt | src/CodeGenerator.java:1071-1105 | the state changes exactly as the `<` emission says |
| Generator.CodeGenerator.VisitNot | src/CodeGenerator.java:1135-1156 | the state changes exactly as the `!` emission says |
| Generator.CodeGenerator.VisitCall | src/CodeGenerator.java:464-667 | the state changes exactly as the call emission says |
| Generator.CodeGenerator.VisitStatic | src/CodeGenerator.java:584-601 | arguments, then `invokestatic` |
| Generator.CodeGenerator.VisitVirtual | src/CodeGenerator.java:606-663 | receiver, arguments, then `invokevirtual` |
| Generator.CodeGenerator.VisitStmt | src/CodeGenerator.java:692-1041 | the state changes exactly as `EmitStmt` says |
| Generator.CodeGenerator.VisitAssign | src/CodeGenerator.java:692-766 | the state changes exactly as `AssignCode` says |
| Generator.CodeGenerator.VisitIf | src/CodeGenerator.java:967-1017 | the state changes exactly as `IfStmt` says |
| Generator.CodeGenerator.VisitWhile | src/CodeGenerator.java:1020-1041 | the state changes exactly as `WhileStmt` says |
| Generator.CodeGenerator.VisitBlock | src/CodeGenerator.java:440-447 | the state changes exactly as `EmitBlock` says |
| Generator.CodeGenerator.Write | src/CodeGenerator.java:176-183 | appends one line to the output |
| Generator.CodeGenerator.DumpInstructions | src/CodeGenerator.java:188-196 | writes the buffer as lines and empties it |
| Generator.CodeGenerator.VisitMethod | src/CodeGenerator.java:375-461 | writes and leaves exactly what `MethodRun` says, or sets `exited` |
| Generator.CodeGenerator.VisitMethods | src/CodeGenerator.java:345-372 | writes exactly what `ClassRun` says |
| Generator.CodeGenerator.WriteFields | src/CodeGenerator.java:345-372 | writes the field lines |
| Generator.CodeGenerator.WriteConstructor | src/CodeGenerator.java:345-372 | writes the default constructor calling the superclass's `<init>` |
| Generator.CodeGenerator.VisitClass | src/CodeGenerator.java:345-372 | writes exactly what `ClassText` says |
| Text.NatToStringInjective | src/CodeGenerator.java:825-839 | decimal printing of naturals is injective |

## Left out

- File output is the `out` list of lines. Closing the file and `IOException` handling are not modelled.
- `System.exit(0)` after a failed method lookup in the generator is the `exited` flag. Nothing after it is written. The `FileWriter` opened at src/CodeGenerator.java:95 is then never flushed or closed, so lines the model keeps in `out` before the exit may never reach the file.
- The `SEMANTIC ERROR` lines of the builder and the analyser (src/SymbolTableBuilder.java:23, src/SemanticAnalyser.java:16) are a list of diagnostics. Stack traces are not modelled. This covers the analyser's trace for a method with no matching overload (src/SemanticAnalyser.java:67-69): `MethodReport.NotFound` keeps its message, and `Analyser.MethodDiags` adds nothing for it. It also covers the generator's traces (src/CodeGenerator.java:101, 181, 194, 290, 325, 338, 393, 456, 522, 545, 570, 661).
- The generator's "Unknown identifier" lines on the error stream, with their stack traces (src/CodeGenerator.java:759-760, 799-800), are not modelled. `Emit.LoadName` and `Statements.AssignCode` emit nothing for an unknown name and record nothing.
- Analyser.Binary, Analyser.Not, Analyser.AnalyseBody, Analyser.AnalyseMethods: on an exception, the diagnostics printed before it are not kept. Statements are visited in order, and each operator visits both operands before it checks them (src/SemanticAnalyser.java:143-158). Nothing catches an exception (src/Main.java:45-46), so whatever an earlier statement or the left operand printed is already on the console when it ends the run. The model yields only the `Err`. In the body `1 + 2; x && y;` the source prints its report on `1 + 2` and then throws on `x && y`, while the model yields only the exception.
- The analyser and builder print through a helper that formats `SEMANTIC ERROR: … at line: …, column: ….`. That formatting is `Ast.ErrorLine`; no member prints.
- The parser, tokens and node classes are not part of this model. The tree is the `Ast` datatypes, carrying only what the passes read.
- The generator's `fetchMethodArgs` (src/CodeGenerator.java:263-271) and the receiver type at src/CodeGenerator.java:605-606 are meant to come from the analyser. This analyser has no two-argument constructor (src/SemanticAnalyser.java:11), and its call and identifier visits return null (src/SemanticAnalyser.java:277-285, 128-130). The model takes the intended values as inputs: each call's `argTypes` and a named receiver's `Receiver.varType`. The null argument list is a Findings row; with it, the null receiver type of :606, dereferenced at :608, is never reached.
- `Ast.NodeValue` prints "null" for operator nodes, which carry no value. Concatenating a node without a value gives "null" in Java.
- The generator's `Env` holds `className` and `superName` as inputs. The builder never fills them (the table's names stay empty), so the generator model takes them as given.
- An import that is not a method keeps an empty parameter list and an empty return type. Only method imports enter the overload check.
- Builder.SymbolTableBuilder.Build: states field types, groups and diagnostics only for an initially empty table. The key sets are stated for any table.
- Builder.SymbolTableBuilder.VisitMethods: states which methods clash and that each clash reports once. The text of the overload message is stated by `Symbols.SymbolTable.CheckEqualMethods`, not repeated here.
- Machine.AndRuns, OperatorSemantics.AndSemantics: proved only when the right operand's code is one constant push. The general case needs a lemma relating a spliced code fragment's run at an offset to its run alone. That lemma is not part of this model. `Emit.AndLayout` and `Machine.AndSecond` state the layout and the second test for any operand.
- PushInt: literals are natural numbers of any size. A literal above 2147483647 makes `Integer.parseInt` throw `NumberFormatException` in the source; the model emits `ldc_w` for it.
- PushInt: the generator uses the corrected push. The source's `bipush` for 128-200 is `Jasmin.PushIntAsWritten` (see Findings).
- ConvertType: the generator uses the corrected class descriptor `L<name>;`. The source's null for class types is `Jasmin.ConvertTypeAsWritten` (see Findings).
- ThisTarget: the generator falls back to the class's own method for `this.m()`. The source's drop with a superclass is `Emit.ThisTargetAsWritten` (see Findings).
- `maxStack`, the stack counter and the three label counters are never reset between methods in the source. The model keeps them so; `Return` resets only the stack counter.
- The older copies in src/SymbolTable (SymbolTable.java, ImportDescriptor.java, MethodDescriptor.java) are not part of this model; the project/src versions are. Descriptor.java, Symbol.java, Main.java and the Jasmin test runner are not part of this model either.
- The analyser's `ASTIdentifier` and `ASTObjectCall` visits return null and check nothing. Assignments, ifs, whiles and returns are not checked either; `Analyser.OnlyExpressionStatementsReport` states that.
- Generator.CodeGenerator.ClearStack: requires `currentStack >= 0`. From a negative counter the source's loop only stops once the 32-bit counter has wrapped around, some 2^32 `pop`s later, after the buffer has exhausted memory. The functional model gives `None` there (`Statements.Clear`; `Methods.UndeclaredOperandsAbort` shows an input that gets there). The class's VisitStmt, VisitBlock, VisitMethod, VisitMethods and VisitClass therefore require their emission to be `Some`.
- Slots.BuiltSlotsBelowLimit: the generator's `Env` is not computed from the builder's table. The lemma therefore takes as a premise that the looked-up signature's slot count is the descriptor's `DescriptorSlots`; `Slots.DescribedSlots` proves the count for the builder's descriptor.
- Analyser.Synth: in the corrected rules an indexed `int[]` name has type `int`, and indexing any other name yields no type and no report. The source has no rule for indexing: it resolves the name alone (src/SemanticAnalyser.java:251-269), which the as-written rules keep.
- Emit.LtParts: the `iflt` form is chosen when the right operand is the literal whose value is 0. The source compares the literal's text with "0" (src/CodeGenerator.java:1080), so a literal written `00`, if the lexer admits it, takes the general form there. The tree keeps no literal text. Both forms compute the same comparison.

## Findings

| source | as written | input that shows it | evidently intended | confidence | as-written member | corrected member |
|---|---|---|---|---|---|---|
| src/SemanticAnalyser.java:161-176 | `<` checks both operands against "boolean" | `1 < 2` reports "1" as not boolean | `<` takes two ints | not executed | Analyser.AsWrittenRejectsEveryComparison | Analyser.CorrectedSynthIffWellTyped |
| src/SemanticAnalyser.java:179-248 | arithmetic wants "integer", but literals and `length` give "int" | `1 + 2` reports "1" | arithmetic takes "int" | not executed | Analyser.AsWrittenRejectsEveryArithmetic | Analyser.CorrectedSynthIffWellTyped |
| src/SemanticAnalyser.java:251-269 | a name yields its VariableDescriptor, and each operator casts its operands to String | `x && y` with boolean locals throws ClassCastException | a name yields its type name | not executed | Analyser.AsWrittenCrashesOnNameOperands | Analyser.CorrectedSynthIffWellTyped |
| src/CodeGenerator.java:825-839 | `bipush` for literals up to 200 | the literal 150 gives `bipush 150`, outside a signed byte | `bipush` up to 127 | not executed | Jasmin.PushIntAsWrittenOverflows | Jasmin.PushInt |
| src/CodeGenerator.java:203-220 | `convertType` returns null for class types | parameter lists `(A)` and `(B)` both print as "null" | `L<name>;` | not executed | Jasmin.ClassParamsCollideAsWritten | Jasmin.ConvertParamsInjective |
| src/CodeGenerator.java:482-501 | `this.m()` in a class with a superclass tries only the superclass import | class A extends B, with own `int f()`: `this.f()` emits nothing | fall back to the class's own method | not executed | Emit.ThisCallDroppedAsWritten | Emit.ThisTarget |
| src/CodeGenerator.java:263-271 | the argument types come from an analyser visit that returns null, and each lookup joins them into its error message first | any call, e.g. `this.f()` for the class's own `int f()` | the call's argument types | not executed | Emit.CallLookupCrashesAsWritten | Emit.Resolve |
