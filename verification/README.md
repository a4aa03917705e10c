# HECO: optimizer, lowering and legacy front end

HECO compiles programs over encrypted data. Its middle end turns programs that work on single slots of
encrypted vectors into programs that work on whole vectors by rotating, adding and multiplying them. This
project models that optimizer, the lowering of syntax trees to SSA code, and the hand-written front end
(tokenizer, expression and statement parser, printer), and proves what they keep and where they do not.

`dafny verify dfyconfig.toml` checks everything.

**The optimizer.** A function is a list of operations; a value is the position of the operation that defines
it (`Ir`). Operations are interpreted in any algebra (`Meaning`): as slot vectors of n > 0 integers, where
`rotate(v, k)[j] = v[(j - k) mod n]` and a combine takes from its first operand the slots listed there and
from the one marked "all" the rest; as unfolded terms; as bags of addends. A pass is a walk that replaces
one operation after the other and renames what refers to them (`Walk`). The passes are `Folding`, `Cse` and
`Dce` (canonicalizer and CSE), `Nary`, `Batching`, `Combining` and `Internal`, put together in `Pipeline` in
the order of the compiler's tool. `InPlace` runs them on one mutable list, with loops and a moving cursor,
and ties each method to the walk. `Terms`, `Unnested`, `Sums`, `Flattened`, `Vectors`, `Windows`,
`SlotSums`, `Reduction`, `Ladder`, `Counting` and `DotProduct` lead up to the reduction theorem,
`Elementwise` and `VectorLoop` to the elementwise theorem, `Loops` to both for concrete unrolled loops.
`Soundness` is about the pass sequence on any other function. `Targets` says in which slot a scalar ends up,
`Survivors` what happens to an operand list, `NormalForms` what the passes leave; `Limits` and `Unbatched`
where the passes are wrong and exactly when they are right, `Failures` shows whole functions that a pass
changes. `CombineText` is the textual form of a combine, `CombineGrammar` what is accepted as one.

**The lowering.** `Lowering` gives source functions and SSA code with loop-carried values a meaning and
proves the compiler between them right; `Translator` is the compiler as the builder with scopes that it is,
`Compiled` what compiled programs return, in integer arithmetic.

**The front end.** `Streams` (push-back stream, sorted lookup table, maximal munch) and `Tokenizers` are the
tokenizer, `Lexing` what it should do to a text; `Vocabulary`, `Literals` and `Comments` say so without it.
`Parsing` and `Parsers` are the parser on values and on a token cursor, `Syntax`, `Precedence` and `Infix`
what it makes of proper infix sequences, `Gaps`, `Jumbles`, `Prefixes` and `Rejection` of the others,
`Grammar` and `Forms` what it accepts at all; `Printing`, `Statements`, `Layout`, `Lines` and `Printers` the
printer and what comes back from it; `Texts` and `Spacing` which texts are tokenized to the tokens they
spell.

Names and error messages aside, the model follows the code; where the code and the intent part, the code is
modelled and the difference is a lemma (see Findings).

## Model

| member | source | states |
|---|---|---|
| DotProduct.ReductionTheorem | src/Passes/hir2hir/InternalOperandBatching.cpp:91-150 | For every n = 2^k, k >= 1, and every well-typed function whose result unfolds to a sum holding each product x[i] * y[i] exactly once (any order, any nesting, zeros among the addends): after the whole pass sequence the function has 2k + 5 operations, among them one multiplication, k rotations and k additions; it returns the dot product of x and y, as it did before. Holds for any order in which users are enumerated. |
| Loops.DotLoopTheorem | src/tools/fhe-tool/fhe-tool.cpp:78-101 | The unrolled loop `s := s + x[i] * y[i]`, 4n + 4 operations for n = 2^k slots, becomes 2k + 5 operations with one product, k rotations, k additions, and both lists return the dot product on all inputs. |
| VectorLoop.ElementwiseTheorem | src/Passes/hir2hir/Batching.cpp:71-108 | For n >= 2, each of add, subtract and multiply, and any function that returns a vector whose slots 0, 1, ..., n - 1 are overwritten in this order with x[i] op y[i]: the pass sequence leaves the one tree op(x, y) on the two parameters, four operations with one arithmetic one, and both lists return the slot-by-slot result. |
| Loops.ElementwiseLoopTheorem | src/tools/fhe-tool/fhe-tool.cpp:78-101 | The unrolled loop that inserts x[i] op y[i] into slot i is such a function, so it compiles to the one vector operation and keeps its value. |
| DotProduct.OptimizedSum | src/tools/fhe-tool/fhe-tool.cpp:78-101 | Every sum of products over n = 2^k slots, whatever its shape, comes out as one and the same term, with one operation for each of its subterms. |
| Soundness.OptimizeKeeps | src/tools/fhe-tool/fhe-tool.cpp:78-101 | For any function and any order of users: if each stage of the sequence meets the condition of its pass (folds safe, no addition or product listing another twice, no nested subtractions, slots to aim at, safe collapses), the whole sequence keeps what the function returns on every input, the function stays well typed, every operation left contributes to the result, and none but a return is there twice. |
| Batching.BatchCorrect | src/Passes/hir2hir/Batching.cpp:206-236 | The in-order walk keeps the value of every operation, leaves no scalar arithmetic and no ill-typed operation, when each scalar operation has extracts, constants or arithmetic results as secret operands and some slot to aim at; whatever the order of users. |
| Batching.ConvertOk | src/Passes/hir2hir/Batching.cpp:131-179 | Converting the operands fails exactly when a secret operand is neither an extract nor a constant; otherwise every operand has its stand-in and the list stays well typed. |
| Unbatched.BatchExact | src/Passes/hir2hir/Batching.cpp:206-236 | For every well-typed function: the walk yields a well-typed function without scalar arithmetic if and only if every scalar operation has only extracts, constants and arithmetic results as secret operands, and is used by an insert or a return or has an operand that is no constant. The order in which users are enumerated does not matter. |
| Unbatched.SlotMissed | src/Passes/hir2hir/Batching.cpp:93-108 | The function that returns twice the sum of two constants: its inner sum has neither such a user nor such an operand, so the walk emits a read of slot -1 and the result is ill typed, whatever the constants and the order of users. |
| Targets.UserDecides | src/Passes/hir2hir/Batching.cpp:71-90 | If the first enumerated user that asks for a slot inserts a scalar result into slot i, the result is read from slot i of the batched operation; if it returns the result, from slot 0. |
| Targets.OperandsDecide | src/Passes/hir2hir/Batching.cpp:93-108 | A result no user asks for is read from slot 0 if some operand was, otherwise from the slot of the first operand that is no constant. |
| Targets.InsertedCombines | src/IR/FHE/FHEDialect.cpp:400-420 | So a scalar operation whose result is first asked for by an insert into slot i ends, after the fold, as the combine of the batched operation by [i]. |
| Batching.SlotOfBatched | src/Passes/hir2hir/Batching.cpp:181-197 | Slot t of the operation on the stand-ins is the scalar the original operation computed. |
| Nary.NaryCorrect | src/Passes/hir2hir/Nary.cpp:133-156 | Sweeping additions (or multiplications) of a function in which none lists another twice keeps every value on every input, and no used one is left with an operand of its own kind. |
| Nary.SweepKeeps | src/Passes/hir2hir/Nary.cpp:21-44 | The same in any algebra in which a nested operation can be spliced into its user: bags of addends as well as numbers. |
| Nary.SweepFlat | src/Passes/hir2hir/Nary.cpp:71-95 | Flatness alone, also where an operation is listed twice: after the sweep no used operation of the kind has an operand of the kind. |
| Nary.SweepNext | src/Passes/hir2hir/Nary.cpp:136-139 | The walk ends although it inserts operations it will meet later: each move of the cursor, with or without a collapse, lowers a natural-number measure of the nesting still ahead. |
| Folding.FoldCorrect | src/IR/FHE/FHEDialect.cpp:402-633 | Folding every rotation, insert, combine and arithmetic operation keeps all values if each operation is safe to fold: an arithmetic operation has an operand of its own type that does not fold to a dropped constant unit, the first operand of a difference is not dropped, and a combine lists contiguous runs and no slot twice. Rotations and combines of constants are covered. |
| Folding.InsertIsCombine | src/IR/FHE/FHEDialect.cpp:400-420 | Inserting slot i of one vector into slot i of another is the combine of the two by [i] and "all". |
| Terms.FoldAllTerm | src/IR/FHE/FHEDialect.cpp:437-518 | On the unfolded trees the fold of the list is the bottom-up rewriting of the tree, for every operation. |
| NormalForms.FoldDone | src/IR/FHE/FHEDialect.cpp:402-633 | After the fold nothing is left to fold: no rotation by 0 or by a negative offset, no insert of a slot read from the same place, no combine with a list for all slots, no 0 in a sum or difference and no 1 in a product beside another operand, no arithmetic on a single operand; if no rotation turns back by a whole vector or more. |
| Cse.MergeCorrect | src/tools/fhe-tool/fhe-tool.cpp:82-82 | Merging equal operations keeps every value in every algebra, unfolded terms included. |
| Cse.TermsDistinct | src/tools/fhe-tool/fhe-tool.cpp:94-95 | Once no two operations are equal, no two compute the same term. |
| Dce.PruneCorrect | src/tools/fhe-tool/fhe-tool.cpp:81-81 | Removing the operations the result does not depend on keeps the result in every algebra, the types and the final return. |
| Dce.PruneLive | src/tools/fhe-tool/fhe-tool.cpp:81-81 | Afterwards nothing dead is left: the result depends on every operation. |
| Combining.SimplifyCorrect | src/Passes/hir2hir/CombineSimplify.cpp:32-95 | The forward sweep over all combines keeps every slot of every value; no condition on the function. |
| Combining.SimplifyRuns | src/Passes/hir2hir/CombineSimplify.cpp:60-81 | Index lists that are contiguous increasing runs stay such at every moment of the sweep. |
| Combining.ChainCollapses | src/Passes/hir2hir/CombineSimplify.cpp:232-245 | One sweep turns link t of a chain that takes slots a, a + 1, ... of one source into the single combine of a, ..., a + t with the base of the chain. |
| NormalForms.SimplifyDone | src/Passes/hir2hir/CombineSimplify.cpp:25-97 | After the sweep no combine takes one slot more of a vector than the combine it is laid over. |
| Internal.InternalCorrect | src/Passes/hir2hir/InternalOperandBatching.cpp:172-195 | Batching inside the operands keeps every slot of every value when each collapse is safe: an addition, or a subtraction from another operand, and a use count with remainder 0 or 1 modulo n. |
| Internal.ContiguousExact | src/Passes/hir2hir/InternalOperandBatching.cpp:99-109 | The sorted-neighbour test accepts exactly the permutations of 0, ..., m - 1 with m > 1. |
| Internal.HalvingSums | src/Passes/hir2hir/InternalOperandBatching.cpp:118-130 | For m = 2^k the rotate-and-add loop leaves in slot j the sum of the m slots from j on, cyclically, for every vector size. |
| DotProduct.RungTally | src/Passes/hir2hir/InternalOperandBatching.cpp:125-130 | The loop for 2^k uses emits k rotations and k additions, and nothing else. |
| Windows.RotationsAreWindow | src/Passes/hir2hir/InternalOperandBatching.cpp:118-130 | The sum of the rotations by 0, ..., n - 1 read in slot j is the sum of the n slots that end at j. |
| Windows.WindowsExact | src/Passes/hir2hir/InternalOperandBatching.cpp:118-130 | The sum over the slots from j on may stand for the sum of the n rotations, in all slots of all vectors of a size, if and only if n leaves remainder 0 or 1 modulo that size. |
| Survivors.OperandsSurvive | src/Passes/hir2hir/InternalOperandBatching.cpp:132-150 | The operand list afterwards: the operands of origins that are not collapsed, constants and plaintexts among them, as they were and in their order, then one new operand for each collapsed origin. |
| Survivors.ConstantStays | src/Passes/hir2hir/InternalOperandBatching.cpp:62-76 | A constant listed as an operand and anything that is no batched secret stay in the list, whatever rotations are listed beside them. |
| Survivors.StayingCounts | src/Passes/hir2hir/InternalOperandBatching.cpp:135-145 | An operand that stays is listed as often as before, one of a collapsed origin not at all. |
| Limits.MergedAddExact | src/Passes/hir2hir/Nary.cpp:28-41 | The merged copy may replace an addition that lists p, for all values, if and only if it lists p once or p adds up nothing. |
| Limits.MergedMulExact | src/Passes/hir2hir/Nary.cpp:78-92 | The same for a multiplication. |
| Limits.RepeatedOperandLost | src/Passes/hir2hir/Nary.cpp:21-44 | The function that adds x + x to itself, 4x, comes out of the sweep returning 2x, for every x. |
| Limits.SubSpliceExact | src/Passes/hir2hir/Nary.cpp:46-69 | Splicing a subtraction of c operands that has q operands before it and m behind it keeps the value for all operands if and only if q > 0 and c <= 1, or q = 0 and m = 0. |
| Limits.CollapseExact | src/Passes/hir2hir/InternalOperandBatching.cpp:118-146 | The window sum, put last, may replace m > 1 rotations of a vector of n slots among p operands before and q behind, for all values, if and only if the operation is an addition, or a subtraction with p > 0, and m leaves remainder 0 or 1 modulo n. |
| Limits.CombineFoldExact | src/IR/FHE/FHEDialect.cpp:617-633 | Folding to the operand the length-and-first-index test finds is right for all vectors if and only if that operand lists every slot and no operand before it lists any. |
| Limits.SubFoldExact | src/IR/FHE/FHEDialect.cpp:520-565 | The operand list that folding a subtraction leaves, if it leaves any, gives the same difference for all values if and only if the first operand is not a constant zero. |
| Failures.NestedSubtractionChanged | src/Passes/hir2hir/Nary.cpp:46-69 | The sweep over subtractions turns the function x - (y - z) into x - y - z, for all x, y, z. |
| Failures.EverythingSummed | src/Passes/hir2hir/InternalOperandBatching.cpp:118-146 | On two slots the pass turns the sum, difference and product of x and rotate(x, 1) into one and the same function, which returns x[0] + x[1] in both slots. |
| Failures.RepeatedSlotLost | src/IR/FHE/FHEDialect.cpp:617-633 | On two slots the fold turns the combine of x by the list [0, 0] and y by "all", which is (x[0], y[1]), into x. |
| Failures.LeadingZeroLost | src/IR/FHE/FHEDialect.cpp:520-565 | The fold turns the function 0 - x into x, for all x. |
| InPlace.Function.Optimize | src/tools/fhe-tool/fhe-tool.cpp:78-101 | Run on one mutable list of operations, the passes leave exactly the list the specification names; the reduction and elementwise theorems speak of that list. |
| InPlace.Function.Splice | src/Passes/hir2hir/Batching.cpp:187-197 | Replacing the operation at p by emitted ones redirects every later use to the replacement and moves every later number; nothing else changes. |
| InPlace.Function.Rewrite | src/Passes/hir2hir/Batching.cpp:206-236 | Replacing operation after operation in the list, with the cursor jumping behind each replacement, ends with the list of the whole walk. |
| InPlace.Function.Flatten | src/Passes/hir2hir/Nary.cpp:133-156 | The sweep whose merged copies land ahead of the cursor, done in place. |
| InPlace.FindTargetSlot | src/Passes/hir2hir/Batching.cpp:71-108 | The two search loops stop at the slot of the first user that asks for one, else at slot 0 if an operand sits there, else at the first operand's slot, else at -1. |
| InPlace.ConvertOperands | src/Passes/hir2hir/Batching.cpp:131-179 | The loop over the operands, which replaces all occurrences at once and picks up a missing target slot, yields the specified conversion or its failure. |
| InPlace.RotateAndAdd | src/Passes/hir2hir/InternalOperandBatching.cpp:122-130 | The halving loop emits the specified chain. |
| InPlace.CollectOrigins | src/Passes/hir2hir/InternalOperandBatching.cpp:43-79 | The map holds each origin's rotations in operand order, and the origins are listed in order of first use. |
| InPlace.RemoveUses | src/Passes/hir2hir/InternalOperandBatching.cpp:132-145 | The nested loops drop exactly the uses of the collapsed origin. |
| InPlace.DropUnits | src/IR/FHE/FHEDialect.cpp:473-518 | The loop keeps exactly the operands that are no constant 0 (1 for a multiplication). |
| Lowering.LoweringPreserves | src/Passes/ast2hir/LowerASTtoSSA.cpp:648-716 | For every function without branches, with any nesting of constant-bound loops, that runs without declaring a visible name again: the SSA code, with all visible variables carried through each loop, returns what the source returns, whatever order the symbol table hands out its names in. |
| Lowering.LoweringActual | src/Passes/ast2hir/LowerASTtoSSA.cpp:432-529 | Without the condition on names: the code returns what the source returns if a declaration or loop counter that reuses a visible name leaves that name as it was. |
| Lowering.LowerStmtsOk | src/Passes/ast2hir/LowerASTtoSSA.cpp:362-430 | From any environment that mirrors the variables through the symbol table, lowered statements lead to one that mirrors the variables after them. |
| Lowering.DeclareExact | src/Passes/ast2hir/LowerASTtoSSA.cpp:327-360 | Wherever a declaration is reached, the name stands for the declared value afterwards if and only if it was not visible before or had that value already. |
| Lowering.DeclaredResult | src/Passes/ast2hir/LowerASTtoSSA.cpp:53-59 | A function that ends by declaring x and returning it returns the declared value if and only if x was not visible before that declaration or had that value already. |
| Lowering.RedeclarationIgnored | src/Passes/ast2hir/LowerASTtoSSA.cpp:53-59 | A function that declares x as a, then as b, and returns x returns a. |
| Compiled.OperatorsCompiled | src/Passes/ast2hir/LowerASTtoSSA.cpp:150-235 | Compiled, (x, y) => x + y, x - y, x * y and x % y return a + b, a - b, a * b and a mod b on all integers a and b (for the remainder a >= 0 and b > 0). |
| Compiled.TensorCompiled | src/Passes/ast2hir/LowerASTtoSSA.cpp:120-129 | A literal tensor is returned element by element as it was written. |
| Compiled.PolynomialCompiled | src/Passes/ast2hir/LowerASTtoSSA.cpp:60-235 | Every expression in integer parameters with +, - and * compiles to code that returns its value. |
| Compiled.DifferenceCompiled | src/Passes/ast2hir/LowerASTtoSSA.cpp:432-529 | The loop s := s - v[i] from lo up to hi returns what s was less the sum of v[lo..hi], and so does its code. |
| Compiled.UpdateCompiled | src/Passes/ast2hir/LowerASTtoSSA.cpp:362-430 | The loop v[i] := v[i] - u[i] returns the difference of the tensors, element by element. |
| Compiled.NestedCompiled | src/Passes/ast2hir/LowerASTtoSSA.cpp:432-529 | A loop in a loop, with a name declared anew in each round, that adds v[i] * u[j] to s for all i and j returns what s was plus the product of the two sums. |
| Compiled.CounterIgnored | src/Passes/ast2hir/LowerASTtoSSA.cpp:432-475 | A loop counter with the name of a visible variable never counts: every round sees the variable. |
| Compiled.AssignmentDeclares | src/Passes/ast2hir/LowerASTtoSSA.cpp:362-384 | Assigning to a name that was never declared makes it visible. |
| Compiled.UndefinedIsOne | src/Passes/ast2hir/LowerASTtoSSA.cpp:130-142 | A name that was never declared stands for 1 in the code. |
| Translator.Translate | src/Passes/ast2hir/LowerASTtoSSA.cpp:648-716 | The translation by a builder with a stack of scopes and a growing list of instructions gives exactly the specified code, to which the theorems above apply. |
| Translator.Builder.DeclareName | src/Passes/ast2hir/LowerASTtoSSA.cpp:53-59 | Declaring fails, and changes nothing, exactly when the name is visible in any scope; otherwise it is visible from now on and the outer scopes are untouched. |
| Translator.Builder.Loop | src/Passes/ast2hir/LowerASTtoSSA.cpp:432-529 | A loop appends its instruction, closes its scope again, and lets each name that was visible before stand for the loop's result. |
| Syntax.ParsedFits | src/legacy_ast/ast_utilities/Operator.cpp:98-149 | The tree obtained by splitting at the loosest, rightmost operator has the sequence as its yield, looser operators above tighter ones, and groups to the left. |
| Syntax.ParsedUnique | src/legacy_ast/ast_utilities/Operator.cpp:98-149 | It is the only tree with that yield that does. |
| Precedence.GroupsByRows | src/legacy_ast/ast_utilities/Operator.cpp:98-149 | With the operators written out in nine rows: what the parser returns for an infix sequence is the tree over its operands in which a left operand's operator comes from no row behind and a right operand's from a row before. |
| Precedence.RowsTree | src/legacy_ast/ast_utilities/Operator.cpp:98-149 | Every infix sequence has such a tree. |
| Precedence.ThreeOperands | src/legacy_ast/ast_utilities/Operator.cpp:107-136 | a p b q c is (a p b) q c if p's row is not behind q's, and a p (b q c) otherwise, for all binary operators p and q and all operands. |
| Precedence.TextGroups | src/legacy_ast/ast_utilities/Operator.cpp:98-149 | The same from the text: three names with the spellings of two operators between them are tokenized and parsed to that tree. |
| Precedence.SumOfProduct | src/legacy_ast/ast_utilities/Operator.cpp:107-114 | The text a + b * c multiplies first. |
| Infix.ChainOk | src/legacy_ast/ast_parser/Parser.cpp:276-471 | Shunting-yard: for every sequence of operands and binary operators, operands being names, index accesses, literals, parentheses, lists and rotate calls with such sequences inside, the parser returns that tree and stops right behind the sequence. |
| Infix.ReducedTower | src/legacy_ast/ast_parser/Parser.cpp:288-308 | The stack invariant: operators bind ever tighter towards the top, there is one operand more than operators, and making room for a new operator loses nothing of the sequence read so far. |
| Infix.FinishOk | src/legacy_ast/ast_parser/Parser.cpp:426-470 | Building what is left on the stacks gives the tree of the whole sequence. |
| Rejection.ChainExact | src/legacy_ast/ast_parser/Parser.cpp:344-359 | An infix sequence is parsed (to the one right tree) if and only if its lists are not empty and its negative literals stand where an expression begins; otherwise it is not accepted at all. |
| Rejection.PrefixMisplaced | src/legacy_ast/ast_parser/Parser.cpp:404-422 | a op !b is read as (!a) op b, for all operands and binary operators. |
| Prefixes.PrefixesMisplaced | src/legacy_ast/ast_parser/Parser.cpp:404-422 | The tree of any infix sequence with any number of prefix operators behind its binary operators: each is applied to the whole left operand of the binary operator before it, as read so far; everything else groups by precedence. |
| Gaps.NothingBefore | src/legacy_ast/ast_parser/Parser.cpp:288-304 | A binary operator with no operand before it (a minus sign before a literal apart): an operand is read from an empty stack if and only if some operator behind it binds no tighter; otherwise there is an error. |
| Gaps.GapsExact | src/legacy_ast/ast_parser/Parser.cpp:276-471 | Any sequence of operands and binary operators in which operands are missing anywhere: never accepted; an operand is read from an empty stack if and only if some operator binds no tighter than the one before it and leaves no more operators waiting, itself included, than operands are missing by then; otherwise there is an error. |
| Gaps.ChainOutcome | src/legacy_ast/ast_parser/Parser.cpp:344-359 | The outcome of every infix sequence with any number of negative literals behind operators: accepted if there are none, an empty stack read in the same case as above, an error otherwise. |
| Gaps.NegativeExact | src/legacy_ast/ast_parser/Parser.cpp:344-359 | One negative literal behind an operator: an operand is read from an empty stack if and only if the loosest operator up to there binds no looser than a minus sign, or no looser than some operator behind the literal; otherwise there is an error. |
| Jumbles.JumbleExact | src/legacy_ast/ast_parser/Parser.cpp:276-471 | Operands and binary operators in any order: accepted if and only if there is one operand more than operators and no operator clashes, an empty stack is read if and only if one does, and there is an error otherwise. An operator clashes if it binds no tighter than the one before it and the operands read and the operators that keep waiting, itself included, are together no more than the operators read. |
| Jumbles.OperatorBehind | src/legacy_ast/ast_parser/Parser.cpp:276-471 | So the operator may stand behind both operands: the tokens a b + are read as a + b. |
| Grammar.ExpressionParts | src/legacy_ast/ast_parser/Parser.cpp:276-471 | Whatever expression is returned, the tokens taken are operators, literals, names with indices, and bracketed, listed and rotated expressions, each closed and none empty. |
| Rejection.PostfixExact | src/legacy_ast/ast_parser/Parser.cpp:314-343 | With an increment or decrement behind an infix sequence the loop does not end if and only if each operand by itself is readable and no operand is read from an empty stack before; so behind every sequence that would be accepted. |
| Rejection.StartExact | src/legacy_ast/ast_parser/Parser.cpp:863-876 | A loop header's first part is read if and only if its first statement is read and no comma stands behind it. |
| Rejection.UpdatesExact | src/legacy_ast/ast_parser/Parser.cpp:888-901 | The same for the statements a round ends with. |
| Forms.StatementForm | src/legacy_ast/ast_parser/Parser.cpp:178-239 | Whatever statement is returned, the tokens taken have the form the language has for it (semicolons, brackets, keywords and all), and the statement is the tree of that form. |
| Statements.LoopTree | src/legacy_ast/ast_parser/Parser.cpp:857-912 | For, an opening bracket, a statement, a test, a semicolon, an update, a closing bracket and a body are parsed to the loop with these four parts. |
| Statements.BareBranch | src/legacy_ast/ast_parser/Parser.cpp:914-935 | A branch without braces is a block of that one statement. |
| Statements.DanglingElse | src/legacy_ast/ast_parser/Parser.cpp:940-968 | An else belongs to the nearest if. |
| Statements.BracketsForgotten | src/legacy_ast/ast_parser/Parser.cpp:1003-1020 | A declaration with brackets behind the name is read as the one without. |
| Parsing.ParseStatement | src/legacy_ast/ast_parser/Parser.cpp:178-239 | Progress: on every token sequence parsing a statement takes at least one token or fails, leaves only tokens that were there, and can be endless only if an increment or decrement occurs. |
| Parsing.ParseExpression | src/legacy_ast/ast_parser/Parser.cpp:276-471 | The same for expressions. |
| Parsing.ParseFor | src/legacy_ast/ast_parser/Parser.cpp:857-912 | The same for loops with their header. |
| Parsing.ParseFunction | src/legacy_ast/ast_parser/Parser.cpp:828-855 | The same for functions with their parameters. |
| Parsers.Parser.ParseExpression | src/legacy_ast/ast_parser/Parser.cpp:276-471 | The loop over a moving token cursor with an operand and an operator stack ends as specified: same tree and position, an error, undefined, or not ending. |
| Parsers.Parser.ParseStatement | src/legacy_ast/ast_parser/Parser.cpp:178-239 | The same for statements, and the cursor has moved on whenever a statement is returned. |
| Printing.RoundTripExact | src/legacy_ast/ast_utilities/ProgramPrintVisitor.cpp:12-76 | Parsing the printed tokens of an expression gives it back if and only if its lists are not empty, no negative number is a right operand or behind a prefix operator, no prefix operator stands at a right operand, at most two stand in a row and only one before a left operand. |
| Printing.AloneReread | src/legacy_ast/ast_utilities/ProgramPrintVisitor.cpp:12-76 | For every expression without exception: the tree the parser makes of its printed tokens, or that it makes none. |
| Statements.StmtRoundTripExact | src/legacy_ast/ast_parser/Parser.cpp:178-239 | Blocks, ifs, loops, functions, returns, assignments and declarations, nested in any way, come back from their tokens if and only if all their expressions do, no type is a secret void, and every loop has at most one initial and one update statement, the latter with a value. |
| Layout.LexPrinted | src/legacy_ast/ast_utilities/ProgramPrintVisitor.cpp:12-263 | The printed text of a statement, indentation and line ends included, is tokenized to exactly the printed tokens. |
| Layout.TextRoundTrip | src/legacy_ast/ast_utilities/ProgramPrintVisitor.cpp:12-263 | Tokenizing and parsing the printed text of a statement gives it back, with nothing left over, if and only if it is faithful in the sense above. |
| Printers.Print | src/legacy_ast/ast_utilities/ProgramPrintVisitor.cpp:12-263 | The visitor that appends to its stream and moves its indentation writes that text, so reading it back gives the statement exactly when it is faithful. |
| Lines.StmtShown | src/legacy_ast/ast_utilities/ProgramPrintVisitor.cpp:12-263 | The printed text, line by line: every line is indented by two blanks for each open brace, operators stand between blanks and binary expressions in brackets. |
| Streams.GetOperator | src/legacy_ast/ast_parser/Tokens.cpp:172-202 | On a sorted table: returns the longest entry the text begins with, also through beginnings that are no entries, and leaves stream, line number and character index right behind it, or as they were if there is none. |
| Streams.SortFits | include/heco/legacy_ast/ast_parser/Lookup.h:19-27 | Sorting the entries makes the table fit for the search and does not change which entry is the longest match. |
| Streams.Narrowed | src/legacy_ast/ast_parser/Tokens.cpp:185-186 | The equal range by the next character holds exactly the entries that begin with the characters taken so far, or there are none. |
| Streams.OperatorTable | src/legacy_ast/ast_parser/Tokens.cpp:13-69 | The lookup table of the operators is sorted and finds for every text what the operator list says. |
| Streams.PushBackStream.PushBack | src/legacy_ast/ast_parser/PushBackStream.cpp:30-40 | What is read next is the character given back and then what was ahead; both counters go back. |
| Tokenizers.FetchWord | src/legacy_ast/ast_parser/Tokenizer.cpp:44-113 | Words, keywords and numbers as specified, with two dots in a row left on the stream, or an error at what is no number. |
| Tokenizers.Tokenize | src/legacy_ast/ast_parser/Tokenizer.cpp:229-272 | Skips space and comments and takes from the stream the token the specification reads from the text, leaving the rest of that text ahead. |
| Tokenizers.TokenizeAll | src/legacy_ast/ast_parser/Tokenizer.cpp:275-303 | The tokens of a whole text by means of the sorted table and the stream are those of the specification. |
| Texts.LexRender | src/legacy_ast/ast_parser/Tokenizer.cpp:44-113 | Any list of tokens and white space in which no token runs into the next is tokenized to its tokens. |
| Spacing.LexSpaced | src/legacy_ast/ast_parser/Tokenizer.cpp:229-272 | Any list of operators of the table (all of them), keywords (all of them), identifiers and decimal numbers in int range, with a space behind each, is tokenized to that list. |
| Spacing.SpacedMunch | src/legacy_ast/ast_parser/Tokens.cpp:172-202 | With a blank behind it each operator of the table is its own longest match. |
| Comments.LexCommented | src/legacy_ast/ast_parser/Tokenizer.cpp:197-272 | A text of operators, words, numbers, string and hexadecimal literals, white space, line comments and block comments, in any order, is tokenized to what the tokens mean. |
| Comments.LineComment | src/legacy_ast/ast_parser/Tokenizer.cpp:197-209 | A line comment ends with its line, whatever it holds. |
| Comments.LastComment | src/legacy_ast/ast_parser/Tokenizer.cpp:197-209 | Without a line behind it, it ends with the text. |
| Comments.BlockComment | src/legacy_ast/ast_parser/Tokenizer.cpp:211-227 | A block comment ends with the first star that has a slash behind it. |
| Comments.OpenComment | src/legacy_ast/ast_parser/Tokenizer.cpp:211-227 | A block comment that is never closed is an error. |
| Literals.StringRead | src/legacy_ast/ast_parser/Tokenizer.cpp:136-194 | A string literal of plain characters and characters behind backslashes is read as what they stand for: tab, line feed, carriage return and the zero character for t, n, r and 0, any other character for itself. |
| Literals.StringWritten | src/legacy_ast/ast_parser/Tokenizer.cpp:136-194 | And whatever string literal is read was written this way. |
| Literals.NoBackslash | src/legacy_ast/ast_parser/Tokenizer.cpp:147-150 | No string literal stands for a text with a backslash. |
| Literals.Sayable | src/legacy_ast/ast_parser/Tokenizer.cpp:136-194 | Every other text of characters below 128 has a literal. |
| Literals.HexExact | src/legacy_ast/ast_parser/Tokenizer.cpp:76-101 | Hexadecimal figures behind 0x are read as their value, cut to 32 bits, if and only if the last one is not a lower-case f. |
| Literals.OctalExact | src/legacy_ast/ast_parser/Tokenizer.cpp:88-101 | Figures behind a 0 are octal; an 8 or 9 among them is an error. |
| Literals.DecimalRead | src/legacy_ast/ast_parser/Tokenizer.cpp:88-101 | Other numbers are decimal: a value below 2^31 is read as it is, one below 2^63 modulo 2^32 as a signed number, any other as -1. |
| Literals.LetterInNumber | src/legacy_ast/ast_parser/Tokenizer.cpp:88-101 | A letter in a decimal number is an error, unless the word ends in f. |
| Literals.RealRead | src/legacy_ast/ast_parser/Tokenizer.cpp:76-87 | Digits, a point, digits and perhaps an f are one number with a fraction. |
| Literals.FractionEnds | src/legacy_ast/ast_parser/Tokenizer.cpp:76-101 | A second point, or a letter other than an exponent or a final f, makes a number with a fraction an error. |
| Literals.RangeRead | src/legacy_ast/ast_parser/Tokenizer.cpp:54-63 | Two dots behind a number are left on the stream. |
| Vocabulary.WordRead | src/legacy_ast/ast_parser/Tokens.cpp:79-115 | Every reserved word is read as its token wherever a word may end. |
| Vocabulary.NameExact | src/legacy_ast/ast_parser/Tokenizer.cpp:44-113 | A word of letters, digits and underscores is a name if and only if no digit begins it and it is not reserved. |
| Vocabulary.SignRead | src/legacy_ast/ast_parser/Tokens.cpp:13-76 | Every bracket and every operator of the trees is read as its token. |
| Vocabulary.OtherSigns | src/legacy_ast/ast_parser/Tokens.cpp:13-76 | The remaining signs of the table are read, too: as operators that are refused, as increments, or as signs without a place in the trees. |
| Vocabulary.UnknownCharacter | src/legacy_ast/ast_parser/Tokenizer.cpp:115-134 | A character no sign begins with is an error. |
| Vocabulary.TokenWritten | src/legacy_ast/ast_utilities/ProgramPrintVisitor.cpp:12-263 | The printer writes every token of fixed text as the language spells it. |
| CombineText.RoundTripExact | src/IR/FHE/FHEDialect.cpp:41-178 | Parsing the printed form of a combine gives it back if and only if it has operands, each list is a single index or a run of at least two, and at most one operand is without a list, the last one. |
| CombineText.PrintedParse | src/IR/FHE/FHEDialect.cpp:41-124 | For every combine: what parsing makes of its printed form, or that it is refused. |
| CombineGrammar.ParseExact | src/IR/FHE/FHEDialect.cpp:41-124 | For every token sequence: it is read as c if and only if it is some writing of operands, with single indices or ranges in bounds and at most one operand without a list, that means c. |

## Findings

Properties that one would expect and that do not hold of the code. Each has an input that shows it, for the
passes a whole function run through the pass, and the exact condition under which the code is right.

- Flattening loses a summand (or factor) that is listed twice: `(x + x) + (x + x)` with the inner sum
  computed once becomes `x + x` (`Limits.RepeatedOperandLost`). A merged copy is right exactly when its user
  lists the collapsed operation once (`Limits.MergedAddExact`, `Limits.MergedMulExact`).
- Flattening subtractions changes them: `a - (b - c)` becomes `a - b - c`
  (`Failures.NestedSubtractionChanged`). It is right exactly when the nested subtraction is a later operand
  and has at most one operand, or is the only operand (`Limits.SubSpliceExact`); of subtractions with two or
  more operands no nesting is harmless, and without nesting the sweep changes nothing
  (`Unnested.SweepIdle`).
- Batching inside operands sums, whatever the operation: `x * rotate(x, 1)` on two slots becomes the sum of
  all slots, as does the difference (`Failures.EverythingSummed`). It is right exactly for additions and for
  subtractions from another operand, and only if the number of uses leaves remainder 0 or 1 modulo the
  vector size; otherwise the unit vector tells sum and result apart (`Limits.CollapseExact`,
  `Windows.WindowsDiffer`).
- Folding a combine looks at the length of an index list and at its first index, so `[0, 0]` passes for both
  slots of a vector (`Failures.RepeatedSlotLost`). That is right exactly when the list holds every slot and
  no list before it holds any (`Limits.CombineFoldExact`); it always does when lists are contiguous runs and
  no slot is listed twice, as the sweep leaves them (`Folding.FoldCorrect`, `Combining.SimplifyRuns`).
- Folding a subtraction drops a leading zero: `0 - x` becomes `x` (`Failures.LeadingZeroLost`). It is right
  exactly when the first operand is not a constant zero (`Limits.SubFoldExact`).
- Batching a scalar operation for which no slot can be found emits a read of slot -1, as for the sum of two
  constants that is only added to itself (`Unbatched.SlotMissed`). The walk succeeds exactly when every
  scalar operation has operands that can be converted and an insert or return that uses it or an operand
  that is no constant (`Unbatched.BatchExact`).
- Declaring a visible name again does nothing, silently: the name keeps its old value
  (`Lowering.RedeclarationIgnored`, exact conditions `Lowering.DeclareExact`, `Lowering.DeclaredResult`). A
  loop counter with a visible name is reported, and ignored as well (`Compiled.CounterIgnored`).
- A prefix operator behind a binary one goes to the wrong operand: `a + !b` is read as `(!a) + b`
  (`Rejection.PrefixMisplaced`); `Prefixes.PrefixesMisplaced` gives the tree of every such sequence. So a
  printed tree with such an operand does not come back (`Printing.RoundTripExact`).
- A negative literal is accepted only where an expression begins (`Rejection.ChainExact`): `a == -1` is an
  error, and `a * -1` reads an operand from an empty stack. Which of the two it is `Gaps.NegativeExact` says
  for one such literal and `Gaps.ChainOutcome` for any number.
- A binary operator with nothing before it reads from an empty stack, as in `* a + b`, exactly when some
  operator behind it binds no tighter, and is an error otherwise (`Gaps.NothingBefore`); for operands
  missing in several places see `Gaps.GapsExact`.
- The parser counts operands and operators but does not look where they stand: `a b +` is read as `a + b`
  (`Jumbles.OperatorBehind`). `Jumbles.JumbleExact` says exactly which sequences it takes.
- `a++` and `a--` make the parser loop without end, as does an increment or decrement behind any sequence it
  reads that far (`Rejection.PostfixExact`); nothing else does (`Parsing.ParseStatement`).
- A loop header with two initial or two update statements is refused, because the comma between the first
  two is not taken: `for (int i = 0;, int j = 1; ...)` (`Rejection.StartExact`, `Rejection.UpdatesExact`).
- A combine whose list is neither a single index nor a contiguous run is printed as a list that the parser
  refuses; one with a list of one index in brackets of its own comes back as the index
  (`CombineText.RoundTripExact`).
- A backslash behind a backslash escapes again, so no string literal stands for a text with a backslash
  (`Literals.NoBackslash`); every other text below 128 has one, and `Literals.StringRead` and
  `Literals.StringWritten` say exactly which texts are read as what.
- `0xff` is taken for a float, because it ends in f; a hexadecimal number is read as an integer exactly when
  its last figure is no lower-case f (`Literals.HexExact`).
- `secret void` is read as `void` (`Statements.StmtRoundTripExact`).

## Left out

- Conditionals in the lowering (LowerASTtoSSA.cpp:237-325): the translation uses values defined in one
  branch outside of it, where they do not exist, and multiplies the value of the else branch by the
  condition instead of its complement; the code it builds has no meaning that could agree with the source.
- Types and the coercion of literals in the lowering, index accesses into index accesses, returns inside
  loops, and the remainder of negative operands (the code takes the unsigned remainder).
- Lowering.LoweringPreserves: says nothing of source programs that use an undefined name or read outside a
  tensor; the code reports an error for the first and goes on.
- Soundness.OptimizeKeeps: its conditions are those of the passes at their stages, not one condition on the
  function that goes in; for the two families of programs above there is none.
- Grammar.ExpressionParts: says how an accepted expression is written, not which tree it becomes; that is
  Infix.ChainOk for infix sequences and Prefixes.PrefixesMisplaced for prefix operators. Sequences with
  prefix operators and missing or surplus operands are not described.
- Nary.NaryCorrect: no operation lists another of the kind twice; Limits.MergedAddExact and
  Limits.MergedMulExact say what happens if one does.
- Internal.InternalCorrect: only safe collapses; Limits.CollapseExact shows the others wrong.
- Folding.FoldCorrect: an operation all of whose operands are dropped is left as it is in the model; the
  code reads the front of an empty list there. Floating-point zeros and ones are integers in the model.
- Overflow, plaintext moduli and noise: slots are unbounded integers. One vector size n > 0 for a whole
  function; vectors of unknown or different sizes are not modelled.
- The order in which the compiler enumerates the users of a value is a parameter that every theorem holds
  for; users are taken from the list as it was before the pass.
- The greedy pattern driver of the canonicalizer: dead-code removal, one fold of everything in order and
  dead-code removal stand for it; CSE is merging operations with equal opcode, operands and type
  (Cse.MergeCorrect, Dce.PruneCorrect).
- Loop unrolling, Tensor2BatchedSecret, the replacement of arith operations by fhe ones and materialize
  operations: the passes start from extracts, inserts and arithmetic on secrets.
- A failed conversion in the batching walk leaves the operation as it is and goes on; the code stops the
  walk there and signals failure. Batching.BatchCorrect shows that no conversion fails on the functions it
  is about.
- Infix.ChainOk: sequences have a prefix operator only in front of their first operand; what happens to
  those behind binary operators is Prefixes.PrefixesMisplaced.
- The printed text of loops and functions (Statements.StmtRoundTripExact is about their tokens), ternary
  operators, calls other than rotate, and string, character and floating-point literals: their printed form
  is not in the language that is parsed, or depends on floating-point text. Floating-point values are not
  read; a word is only classified as one.
- Loops and functions are parsed but no meaning is given to them in the front end.
- Text and position of error messages; line numbers are kept for the stream only.
- Characters from 128 on are negative chars and read as the end of the input, as on platforms where char is
  signed. Streams.Strip is what such a stream delivers before it delivers end marks only.
- Library sorting, binary search and logarithm: sorting is insertion sort, the bounds of a range are found
  by scanning, the logarithm test is the power-of-two test it stands for.
- The JSON form of syntax trees, the Python front end, the lowerings to BGV and EMITC, type inference,
  benchmarks and command-line tools.
