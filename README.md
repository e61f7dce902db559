# Join ordering, modelled in Dafny

This project models the core of `joinorder`, a small Go library that picks the
order in which a query joins its relations. It covers:

- the schema builder, with its triangular table of pair selectivities, in
  `schema/schema.go`;
- the relation-set-to-integer map with its 64-bit key, in
  `schema/relset_map.go`;
- the brute-force orderer over left-deep orders and its cost function, in
  `orderer.go`, with the swap-based permutation enumerator of `perm.go`;
- the forest of join groups and its rendering, in `join/join.go` and
  `join/forest.go`;
- the Ibaraki–Kameda (IKKBZ) orderer, in `ikkbz_orderer.go`. It roots the
  query tree, and computes the row factor `T`, the cost `C` and the rank `R`.
  It also solves and merges wedges and searches over the roots;
- the DPsize orderer, in `dpsize_orderer.go`. It is a bottom-up dynamic
  program over plan sizes. It files the cheapest join found per relation set,
  but the list each size hands to larger sizes keeps the first join found
  (see Findings).

Files:

| file | module | models |
|---|---|---|
| `util.dfy` | `Util` | `Option` and `Outcome`, the results that stand for panics |
| `schema.dfy` | `Schema` | `pair`, the `Builder` class |
| `relset_map.dfy` | `RelSetMap` | `index`, the `RelSetMap` class |
| `orderer.dfy` | `Ordering` | `indexPair`, the pair table as a value, the cost model, the `Orderer` class |
| `perm.dfy` | `Permutations` | `Perm`/`perm` on an array |
| `join_tree.dfy` | `JoinTree` | the group arena, `format`, the `String` listing |
| `join_text.dfy` | `JoinText` | reading a rendering back into its tree |
| `join_forest.dfy` | `JoinForest` | the `Forest` class |
| `ikkbz_tree.dfy` | `RootedTrees` | rooted query trees, subtrees, child lists |
| `ikkbz_rank.dfy` | `Ranks` | rooted selectivity, `T`, `C`, `R` as functions |
| `ikkbz_merge.dfy` | `Wedges` | the rank-guided merge, solved wedges, compression |
| `ikkbz.dfy` | `Ikkbz` | the `IkkbzOrderer` class |
| `dpsize_plans.dfy` | `DPPlans` | the DPsize memo as a value and the search invariants |
| `dpsize.dfy` | `DPSize` | the `DPSizeOrderer` class |
| `dpsize_relist.dfy` | `DPRelist` | the level lists as written against lists that follow the filed plans |

**Numbers.** Selectivities and costs are `real`. The Go code multiplies
`float64` values, so every equality here holds in exact arithmetic, not with
IEEE rounding. Cardinalities are `int`, as `Cardinality` (orderer.go:7) and a
relation's `card` (schema/schema.go:10) are. DPsize stores a join's estimated
cardinality as `schema.Cardinality(newCard)` (dpsize_orderer.go:76). The
schema package that defines that type is not part of this model. The model
assumes it is an integer type like the two above, so the conversion truncates
toward zero, and writes it out as `DPPlans.Trunc`.

**Panics.** Where a caller can provoke an explicit `panic` with ordinary input,
the model returns `None` or `Fail`:

- a duplicate relation name or an unknown name in the builder;
- a relation set with a member above 63;
- `indexPair` on a self pair, in `Ordering.IndexPair`;
- formatting group 0;
- a rooted selectivity before a root is set;
- the rank of an empty sequence.

A Go runtime index-out-of-range is a precondition instead, with one
exception. The builder's self predicate on its newest relation writes one
slot past the table (schema/schema.go:65); `Schema.Builder.AddPredicate`
returns `Fail(SlotOutOfRange)` there.

The `Orderer` methods that reach `indexPair` do not model its self-pair
panic. `GetSelectivity`, `Adjacent` and `AddPredicate` require a valid pair
of distinct relations. `Cost` requires an order of distinct relations (see
Left out).

The "query graph was not a tree" panic of `SetRoot` is proved unreachable on
a tree. The tree is given as a ghost rooting (parent array and depths).

## Model

| member | source | states |
|---|---|---|
| Schema.TriClosedForm | schema/schema.go:13-18 | the number of pairs below `n` is n(n-1)/2, the band start `pair` uses |
| Schema.TriMonotone | schema/schema.go:13-18 | band starts grow with the larger index |
| Schema.PairClosedForm | schema/schema.go:13-18 | `pair(a, b)` is hi*(hi-1)/2 + lo after ordering the two indexes |
| Schema.PairBand | schema/schema.go:13-18 | the slot of a pair with larger index hi lies in [Tri(hi), Tri(hi+1)) |
| Schema.PairBelow | schema/schema.go:13-18 | `pair` is symmetric, and for distinct indexes below n it lands inside a table of Tri(n) slots |
| Schema.PairInRange | schema/schema.go:13-18 | `pair` is symmetric and below n(n-1)/2 for distinct indexes below n |
| Schema.PairInjective | schema/schema.go:13-18 | distinct unordered pairs get distinct slots |
| Schema.SelfPairAliases | schema/schema.go:13-18 | the self pair {l, l} gets the slot of {0, l+1} |
| Schema.Builder.constructor | schema/schema.go:31-35 | a new builder is empty and consistent |
| Schema.Builder.AddRelation | schema/schema.go:37-52 | a duplicate name fails and changes nothing; otherwise the relation is appended, indexed under its name, and the table grows by one unset (-1) slot per existing relation |
| Schema.Builder.AddPredicate | schema/schema.go:54-66 | an unknown name fails; the self pair of the newest relation falls past the table and fails; otherwise exactly the pair's slot is overwritten |
| Schema.PredicateSlot | schema/schema.go:54-66 | for known indexes, the slot misses the table exactly for the newest relation's self pair |
| Schema.Builder.Build | schema/schema.go:68-73 | the schema holds the builder's relations in order and a table of n(n-1)/2 slots |
| Schema.Example | schema/schema.go:37-73 | two relations and a predicate between them, then a self predicate on the first: the built schema holds the two relations and the single slot holds the self predicate's 0.5, since it aliases the pair's slot |
| Schema.ThreeUnset | schema/schema_test.go:6-12 | three relations and no predicate build a schema with those relations in order and three unset (-1) slots |
| RelSetMap.Next | schema/relset_map.go:16 | the least member at or above `from`, or none when there is none |
| RelSetMap.Index | schema/relset_map.go:14-23 | the ascending walk returns `Encode`: failure exactly when a member exceeds 63, otherwise the sum of 2^(i-1) over the members |
| RelSetMap.EncodeInjective | schema/relset_map.go:14-23 | two sets over 1..63 with the same key are equal |
| RelSetMap.ZeroMemberIgnored | schema/relset_map.go:20 | member 0 adds nothing to the key (shift count wraps), so S and S ∪ {0} collide |
| RelSetMap.GetAfterSet | schema/relset_map.go:25-31 | after `Set(s, v)`, `Get(s)` is v and every other keyable set reads as before |
| RelSetMap.GetUnset | schema/relset_map.go:29-31 | an empty map reads 0 for every keyable set |
| RelSetMap.RelSetMap.constructor | schema/relset_map.go:8-12 | a new map is empty |
| RelSetMap.RelSetMap.Set | schema/relset_map.go:25-27 | fails exactly on an unkeyable set; otherwise only that key changes |
| RelSetMap.RelSetMap.Get | schema/relset_map.go:29-31 | the stored value, 0 when unset, failure when unkeyable |
| Ordering.IndexPair | orderer.go:37-47 | fails exactly on a self pair |
| Ordering.IndexPairSlot | orderer.go:37-47 | symmetric; (hi-1)(hi-2)/2 + (lo-1); inside a table of n(n-1)/2 slots |
| Ordering.IndexPairInjective | orderer.go:37-47 | two pairs share a slot only when they are the same unordered pair |
| Ordering.Slot | orderer.go:29-30 | every valid pair's slot is inside the table |
| Ordering.Fresh | orderer.go:17-27 | a new orderer's tables are well formed |
| Ordering.AddPred | orderer.go:54-61 | adding a predicate keeps the tables well formed |
| Ordering.SetCard | orderer.go:63-65 | setting a cardinality keeps the tables well formed |
| Ordering.FreshDefaults | orderer.go:17-35 | on a new orderer every pair reads selectivity 1 and is not adjacent |
| Ordering.AddPredOthersUnchanged | orderer.go:54-61 | adding a predicate changes no other pair's selectivity or adjacency |
| Ordering.AddPredSame | orderer.go:54-61 | adding a predicate multiplies the pair's selectivity by `sel` and makes it adjacent |
| Ordering.ApplyAll | orderer.go:54-61 | a series of `AddPredicate` calls keeps the tables well formed |
| Ordering.PredStep | orderer.go:54-61 | one more predicate extends the pair's product |
| Ordering.PredicatesMultiply | orderer.go:54-61 | from an unset pair, its selectivity is the product of all predicates added for it |
| Ordering.PredicatesAdjacent | orderer.go:49-61 | a pair is adjacent exactly when some predicate named it |
| Ordering.FreshPredicates | orderer.go:17-61 | on a new orderer: selectivity = product of the pair's predicates, adjacent iff one was added |
| Ordering.CardinalityAfterSet | orderer.go:63-69 | `Cardinality(b)` after `SetCardinality(a, c)` is c for b = a and unchanged otherwise |
| Ordering.ScaleDef | orderer.go:99-101 | one step of the inner selectivity loop |
| Ordering.ScaleUnfold | orderer.go:99-101 | one step of the inner loop with the selectivity named |
| Ordering.RowsStep | orderer.go:96-104 | one outer step: rows = scaled rows × cardinality, and the cost grows by it |
| Ordering.ScalePositive | orderer.go:99-101 | with positive statistics the scaled row count stays positive |
| Ordering.CostPositive | orderer.go:92-106 | with positive statistics every prefix has positive rows and the cost strictly grows |
| Ordering.ScalePrefix | orderer.go:99-101 | the inner loop reads only the prefix up to ord[i] |
| Ordering.CostPrefix | orderer.go:92-106 | rows and cost up to i depend only on ord[..i+1] |
| Ordering.CostSingle | orderer.go:92-94 | a single relation costs its cardinality |
| Ordering.CostAppend | orderer.go:92-106 | appending x multiplies in its selectivities to every earlier relation and its cardinality, and adds exactly the new rows to the cost |
| Ordering.OrderIsPermutation | orderer.go:75-80 | an ordering of 1..n has the elements of 1..n |
| Ordering.PermsAreOrders | orderer.go:75-80 | `Perm` of 1..n emits exactly the orderings of 1..n |
| Ordering.AllPermsAreOrders | orderer.go:80 | every emitted arrangement is an ordering of 1..n |
| Ordering.OrderCostOk | orderer.go:80-81 | `Cost` accepts every ordering of 1..n |
| Ordering.SearchStep | orderer.go:80-87 | one callback step: the first candidate is taken, a later one only when strictly cheaper |
| Ordering.BestOverAllOrders | orderer.go:71-90 | the first minimum over `Perm`'s output is no dearer than any ordering of 1..n |
| Ordering.Orderer.Model | orderer.go:11-15 | the orderer's arrays as well-formed tables over n relations |
| Ordering.Orderer.constructor | orderer.go:17-27 | zero cardinalities and every slot set to -1 |
| Ordering.Orderer.GetSelectivity | orderer.go:29-35 | the stored selectivity, 1 for the sentinel |
| Ordering.Orderer.Adjacent | orderer.go:49-52 | whether the slot is set |
| Ordering.Orderer.AddPredicate | orderer.go:54-61 | an unset slot becomes 1, then it is multiplied by `sel` |
| Ordering.Orderer.SetCardinality | orderer.go:63-65 | overwrites relation a's cardinality |
| Ordering.Orderer.Cardinality | orderer.go:67-69 | relation a's cardinality |
| Ordering.Orderer.ScaleRows | orderer.go:99-101 | the inner loop computes `Scale` |
| Ordering.Orderer.Cost | orderer.go:92-106 | the loops compute the left-deep cost: the sum of every prefix's rows |
| Ordering.Orderer.BruteForceOrder | orderer.go:71-90 | returns an emitted ordering of 1..n; with positive statistics it is the first of minimal cost, no dearer than any ordering |
| Ordering.ThreeRelations | orderer_test.go:23-34 | the costing test's schema is well formed |
| Ordering.ThreeRelationsBuilt | orderer_test.go:23-34 | the costing test's schema is what a new orderer of 3 holds after the test's `SetCardinality` and `AddPredicate` calls |
| Ordering.SixRelations | orderer_test.go:63-78 | the bigger-join test's schema is well formed |
| Ordering.SixCards | orderer_test.go:63-71 | a new orderer of 6 after the test's six `SetCardinality` calls is well formed |
| Ordering.SixCardsUnset | orderer_test.go:63-71 | that orderer holds the six cardinalities and fifteen unset slots |
| Ordering.ApplyStep | orderer.go:54-61 | one more `AddPredicate` call of a series is one more `AddPred` |
| Ordering.ApplyUnset | orderer.go:54-61 | a predicate on an unset pair stores its selectivity in the pair's slot and nowhere else |
| Ordering.SixPrefix | orderer_test.go:72-74 | the test's first three predicates fill slots 0, 4 and 2 |
| Ordering.SixApplied | orderer_test.go:72-78 | the test's five predicates on those cardinalities give the bigger-join schema |
| Ordering.SixRelationsBuilt | orderer_test.go:63-78 | the bigger-join test's schema is what a new orderer of 6 holds after the test's calls |
| Ordering.CostABC | orderer_test.go:40 | Cost([1,2,3]) = 2500550 |
| Ordering.CostBAC | orderer_test.go:41 | Cost([2,1,3]) = 2501500 |
| Ordering.CostACB | orderer_test.go:42 | Cost([1,3,2]) = 5000050 |
| Ordering.CostCAB | orderer_test.go:43 | Cost([3,1,2]) = 5050000 |
| Ordering.CostBCA | orderer_test.go:44 | Cost([2,3,1]) = 7501000 |
| Ordering.CostCBA | orderer_test.go:45 | Cost([3,2,1]) = 7550000 |
| Ordering.BiggerJoin1 | orderer_test.go:80-87 | rows 4 and cost 14 after two relations of [2,4,1,3,5,6] |
| Ordering.BiggerJoin2 | orderer_test.go:80-87 | rows 4 and cost 18 after three |
| Ordering.BiggerJoin3 | orderer_test.go:80-87 | rows 40 and cost 58 after four |
| Ordering.BiggerJoin4 | orderer_test.go:80-87 | rows 20000 and cost 20058 after five |
| Ordering.CostBiggerJoin | orderer_test.go:86-88 | Cost([2,4,1,3,5,6]) = 220058 |
| Permutations.SwapFacts | perm.go:18-20 | a swap permutes the elements, exchanges a[i] and a[j] and keeps the prefix before i |
| Permutations.PermFrom | perm.go:11-22 | `perm` emits `Perms(a, i)` in order and leaves the array as it found it |
| Permutations.Perm | perm.go:6-8 | `Perm` emits `Perms(a, 0)` and restores the array |
| Permutations.PermsCount | perm.go:11-22 | f is called (len(a) - i)! times |
| Permutations.TailCount | perm.go:17-21 | the swap rounds emit (hi - i - 1)·(len - i - 1)! arrangements |
| Permutations.PermsShape | perm.go:11-22 | every emission is a permutation of a that fixes the positions below i |
| Permutations.TailShape | perm.go:17-21 | a swap round's emission has a[k] at i for some partner k |
| Permutations.PermsComplete | perm.go:11-22 | every permutation that fixes the positions below i is emitted |
| Permutations.TailContains | perm.go:17-21 | the round for partner k emits every arrangement of the swapped array |
| Permutations.TailNotInSwapped | perm.go:17-21 | with distinct elements, a later round never repeats an earlier round's emission |
| Permutations.PermsAt | perm.go:16 | recursing from i + 1 keeps a[i] in place |
| Permutations.SwapDistinct | perm.go:18 | a swap keeps the elements distinct |
| Permutations.PermsDistinct | perm.go:11-22 | with distinct elements no arrangement is emitted twice |
| Permutations.TailDistinct | perm.go:17-21 | with distinct elements the swap rounds emit no duplicates |
| JoinTree.Format | join/forest.go:100-114 | group 0 never renders |
| JoinTree.MembersAreLeaves | join/forest.go:65-67 | a rendering group's relations are exactly its tree's leaves |
| JoinTree.ZeroLeafFails | join/forest.go:41-51 | a leaf over relation 0 reads as a join and never renders |
| JoinTree.AppendKeeps | join/forest.go:41-63 | appending a group changes no earlier group's rendering or leaves |
| JoinTree.AppendLeafArena | join/forest.go:41-51 | appending a leaf keeps the arena well formed |
| JoinTree.AppendJoinArena | join/forest.go:53-63 | appending a join of existing groups keeps the arena well formed |
| JoinTree.JoinedCount | join/forest.go:107-112 | "(L ⋈ R)" adds one of each bracket and one join symbol |
| JoinTree.FormatShape | join/forest.go:100-114 | with plain names a rendering has one join symbol and one bracket pair per join, one fewer than its leaves |
| JoinTree.DecRoundTrip | join/join.go:82-86 | `%d` is all digits, has no leading zero, and reads back as n |
| JoinTree.ListingAppend | join/join.go:75-91 | the listing skips group 0, and a new group adds just its own line at the end |
| JoinForest.Forest.constructor | join/join.go:34-39 | a new forest holds only the zero group and lists nothing |
| JoinForest.Forest.AddLeaf | join/join.go:41-51 | appends leaf {r} at the next ID; renders as r's name, never for r = 0 |
| JoinForest.Forest.AddJoin | join/join.go:53-63 | appends the join at the next ID; covers the union; renders "(L ⋈ R)" when both sides do |
| JoinForest.Forest.GetMembers | join/join.go:65-67 | for a rendering group, the leaves of its tree |
| JoinText.Find | join/forest.go:107-112 | the first join symbol at bracket depth 1 from i on, or none |
| JoinText.DepthConcat | join/forest.go:107-112 | bracket depth adds over concatenation |
| JoinText.DepthPieces | join/forest.go:107-112 | "(" opens one bracket; the separator and its spaces open none |
| JoinText.Balanced | join/forest.go:100-114 | with plain names a rendering closes every bracket it opens |
| JoinText.JoinedParts | join/forest.go:107-112 | "(L ⋈ R)" holds L at 1, the separator at \|L\| + 2 and R after it, and the separator sits at depth 1 + depth(L) |
| JoinText.JoinedLeft | join/forest.go:107-112 | a position of L sits one bracket deeper in the join |
| JoinText.JoinedRight | join/forest.go:107-112 | a position of R sits one bracket deeper than it does in R, past a balanced L |
| JoinText.Nested | join/forest.go:100-114 | every join symbol of a plain rendering lies inside a bracket |
| JoinText.NestedJoin | join/forest.go:107-112 | the join case of `Nested` |
| JoinText.FindAt | join/forest.go:107-112 | the search stops at the first candidate |
| JoinText.SplitAt | join/forest.go:107-112 | the first depth-1 join symbol of "(L ⋈ R)" is its separator |
| JoinText.ParseRender | join/forest.go:100-114 | parsing a plain rendering gives back the tree |
| JoinText.PlainTree | join/forest.go:100-114 | with plain names every rendered tree is plain |
| JoinText.FormatRenders | join/forest.go:100-114 | `format` prints the rendering of the group's tree |
| JoinText.FormatParses | join/forest.go:100-114 | with plain names the printed text parses back to the group's tree, so two groups print alike only when their trees agree |
| JoinForest.Forest.FormatString | join/join.go:69-73 | group 0 fails; with plain names a rendering has balanced brackets, one join symbol per join, and parses back to the group's tree |
| JoinForest.Forest.String | join/join.go:75-91 | one line per group after group 0, in ID order |
| JoinForest.ExampleLeaves | join/join_test.go:43-48 | leaves A to F get IDs 1 to 6 |
| JoinForest.ExampleDeepJoins | join/join_test.go:50-51 | E ⋈ D, then F over it |
| JoinForest.ExampleShallowJoins | join/join_test.go:52-53 | C ⋈ A, then B over the deep tree |
| JoinForest.InnerStrings | join/join_test.go:50-52 | the inner joins render as "(E ⋈ D)", "(F ⋈ (E ⋈ D))" and "(C ⋈ A)" |
| JoinForest.LeftString | join/join_test.go:53 | the left side renders as "(B ⋈ (F ⋈ (E ⋈ D)))" |
| JoinForest.ExampleString | join/join_test.go:58 | the expected text is the nested rendering |
| JoinForest.Example | join/join_test.go:41-60 | the test's tree renders as "((B ⋈ (F ⋈ (E ⋈ D))) ⋈ (C ⋈ A))" and covers 1..6 |
| RootedTrees.UnderRoot | ikkbz_orderer.go:18-52 | every relation is under the root |
| RootedTrees.ChildrenBelow | ikkbz_orderer.go:96-104 | the scan lists exactly the relations whose parent is a, ascending |
| RootedTrees.ChildDepth | ikkbz_orderer.go:96-104 | a child is one level below its parent |
| RootedTrees.ChildrenDisjoint | ikkbz_orderer.go:129-134 | different children have disjoint subtrees |
| RootedTrees.SubtreeSplit | ikkbz_orderer.go:129-134 | a subtree is its root plus its children's subtrees |
| RootedTrees.RootSubtree | ikkbz_orderer.go:106-115 | the root's subtree is all of 1..n |
| Ranks.ProductConcat | ikkbz_orderer.go:66-72 | the running product over a + b splits |
| Ranks.AccumulatedConcat | ikkbz_orderer.go:77-86 | the running cost over a + b splits |
| Ranks.TotalConcat | ikkbz_orderer.go:66-72 | the product is multiplicative |
| Ranks.CostConcat | ikkbz_orderer.go:74-86 | the accumulated cost satisfies C(ab) = C(a) + T(a)C(b) |
| Ranks.TConcat | ikkbz_orderer.go:64-72 | T(ab) = T(a)·T(b) |
| Ranks.CConcat | ikkbz_orderer.go:74-86 | C(S1S2) = C(S1) + T(S1)·C(S2), the recurrence in the comment |
| Ranks.ContributionPositive | ikkbz_orderer.go:54-62 | with positive statistics every factor is positive |
| Ranks.ProductPositive | ikkbz_orderer.go:77-86 | positive factors give a positive product and cost |
| Ranks.CostsPositive | ikkbz_orderer.go:88-94 | T > 0 and C > 0 on non-empty sequences, so R is defined |
| Ranks.TestViewRooted | orderer_test.go:133-139 | the test's rooting at 3 is a rooting |
| Ranks.RootedSelTest | orderer_test.go:141-151 | rooted selectivities 1, 0.1, 0.0001 for relations 3, 2, 6 |
| Ranks.TTest | orderer_test.go:162-163 | T([3]) = 100, T([3,5]) = 50000 |
| Ranks.CTest | orderer_test.go:183 | C([3,5]) = 50100 |
| Ranks.RTest | orderer_test.go:203-207 | R([3]) = 0.99, R([4]) = -1.5, R([3,5]) = 49999/50100 |
| Ranks.UnitTest | orderer_test.go:159-181 | T and C of the empty sequence are 1 and 0; of 1 alone and of 2 alone both are 1 |
| Ranks.CFullTest | orderer_test.go:184-185 | C(2 4 1 3 5 6) = 220041.8 and C(2 1 4 3 5 6) = 220042.4 |
| Ranks.CFullFirst | orderer_test.go:184 | C(2 4 1 3 5 6) = 220041.8 |
| Ranks.CFullSecond | orderer_test.go:185 | C(2 1 4 3 5 6) = 220042.4 |
| Ranks.RSingleTest | orderer_test.go:201-206 | R is 0 for 1 and for 2, 0.998 for 5 and 0.9 for 6 |
| Wedges.RankOf | ikkbz_orderer.go:88-94 | R is defined on every piece |
| Wedges.RankOfPiece | ikkbz_orderer.go:88-94 | on a piece the rank function is R and C > 0 |
| Wedges.FlattenConcat | ikkbz_orderer.go:116-119 | flattening distributes over concatenation |
| Wedges.Lowest | ikkbz_orderer.go:141-151 | -1 exactly when every chain is empty; otherwise a non-empty chain |
| Wedges.LowestIsFirstMinimal | ikkbz_orderer.go:141-151 | the chosen head has the least rank, and every earlier non-empty chain ranks strictly higher |
| Wedges.CountAdvance | ikkbz_orderer.go:156-157 | taking a head leaves one piece fewer |
| Wedges.AdvanceChains | ikkbz_orderer.go:156-157 | taking a head leaves well-formed chains |
| Wedges.Merge | ikkbz_orderer.go:140-158 | the merge yields pieces |
| Wedges.MergeInterleaves | ikkbz_orderer.go:140-158 | the merge keeps each chain's order and drops nothing |
| Wedges.ContentsAdvance | ikkbz_orderer.go:156-157 | taking a head removes exactly that piece's relations |
| Wedges.InterleavingContents | ikkbz_orderer.go:140-158 | an interleaving holds exactly the chains' relations |
| Wedges.Wedge | ikkbz_orderer.go:129-173 | a solved wedge starts with [r] and consists of pieces |
| Wedges.WedgesOf | ikkbz_orderer.go:130-134 | one chain list per child |
| Wedges.WedgeContents | ikkbz_orderer.go:129-158 | a wedge holds r and its children's wedges' relations |
| Wedges.WedgeCovers | ikkbz_orderer.go:129-173 | a flattened wedge lists each relation of r's subtree exactly once |
| Wedges.WedgesOfStep | ikkbz_orderer.go:132-134 | one more child adds its wedge's relations |
| Wedges.WedgesOfCover | ikkbz_orderer.go:130-134 | the children's wedges hold exactly their subtrees |
| Wedges.Compressed | ikkbz_orderer.go:160-170 | compression yields between 1 and k pieces |
| Wedges.FlattenPrefix | ikkbz_orderer.go:116-119 | flattening k pieces adds the k-th |
| Wedges.FlattenGrowLast | ikkbz_orderer.go:166 | appending to the last piece appends to the flattening |
| Wedges.CompressedKeepsOrder | ikkbz_orderer.go:160-170 | compression keeps the relations and their order |
| Ikkbz.WalkStart | ikkbz_orderer.go:19-24 | clearing the parents and starting at r begins the walk |
| Ikkbz.WalkChild | ikkbz_orderer.go:27-41 | a relation the scan stops at is an unattached child, so the panic is unreachable |
| Ikkbz.WalkForward | ikkbz_orderer.go:38-39 | hanging the child and moving down keeps the walk invariant |
| Ikkbz.UnassignedShrinks | ikkbz_orderer.go:38 | each step down attaches one more relation |
| Ikkbz.WalkBack | ikkbz_orderer.go:44-50 | moving back up keeps the invariant; at the root the parent array is the rooting |
| Ikkbz.AllAssigned | ikkbz_orderer.go:44-51 | when the walk ends, every relation has its parent |
| Ikkbz.FlattenPieces | ikkbz_orderer.go:116-119 | flattening keeps IDs in range and is non-empty |
| Ikkbz.AccumulateStep | ikkbz_orderer.go:80-84 | one loop step of `T`/`C` advances the product and the cost |
| Ikkbz.LowestNext | ikkbz_orderer.go:143-151 | one selection step takes chain i only when its head ranks strictly lower |
| Ikkbz.CompressedNext | ikkbz_orderer.go:162-169 | one compression step appends or starts a piece |
| Ikkbz.WedgesOfNext | ikkbz_orderer.go:132-134 | one child step appends its wedge |
| Ikkbz.ContributionIs | ikkbz_orderer.go:81 | the factor is the rooted selectivity times the cardinality |
| Ikkbz.RootOrder | ikkbz_orderer.go:113-119 | each root's flattened wedge is a non-empty order |
| Ikkbz.FirstMinExtend | ikkbz_orderer.go:121-124 | the best root changes only on a strictly lower cost |
| Ikkbz.RootOrderCovers | ikkbz_orderer.go:112-120 | every root's order holds each relation exactly once |
| Ikkbz.RootCostPositive | ikkbz_orderer.go:120 | every root's order has positive cost |
| Ikkbz.IkkbzOrderer.constructor | ikkbz_orderer.go:11-16 | no root, all parents 0, a fresh orderer |
| Ikkbz.IkkbzOrderer.NextChild | ikkbz_orderer.go:27-42 | the first adjacent relation not skipped, or n + 1 |
| Ikkbz.IkkbzOrderer.SetRoot | ikkbz_orderer.go:18-52 | on a tree, the walk ends with root r and the parent array of the tree rooted at r |
| Ikkbz.IkkbzOrderer.RootedSelectivity | ikkbz_orderer.go:54-62 | fails exactly without a root; 1 for the root, else the selectivity to the parent |
| Ikkbz.IkkbzOrderer.ContributionOf | ikkbz_orderer.go:69 | the factor of one relation |
| Ikkbz.IkkbzOrderer.T | ikkbz_orderer.go:64-72 | the loop computes T |
| Ikkbz.IkkbzOrderer.C | ikkbz_orderer.go:74-86 | the loop computes C |
| Ikkbz.IkkbzOrderer.R | ikkbz_orderer.go:88-94 | fails exactly on the empty sequence; otherwise (T - 1)/C with C > 0 |
| Ikkbz.IkkbzOrderer.ChildrenOf | ikkbz_orderer.go:96-104 | the children of r, ascending |
| Ikkbz.IkkbzOrderer.SelectStep | ikkbz_orderer.go:144-150 | one selection step tracks `Lowest` |
| Ikkbz.IkkbzOrderer.PickLowest | ikkbz_orderer.go:141-151 | the selection loop returns `Lowest` |
| Ikkbz.IkkbzOrderer.MergeChains | ikkbz_orderer.go:137-158 | [r] then the merge of the chains |
| Ikkbz.IkkbzOrderer.RanksBelow | ikkbz_orderer.go:163-165 | whether piece b ranks strictly below piece a |
| Ikkbz.IkkbzOrderer.CompressStep | ikkbz_orderer.go:162-169 | one compression step |
| Ikkbz.IkkbzOrderer.Compress | ikkbz_orderer.go:160-170 | the compression loop computes `Compressed` |
| Ikkbz.IkkbzOrderer.SolveWedge | ikkbz_orderer.go:129-173 | returns the solved, uncompressed wedge of r |
| Ikkbz.IkkbzOrderer.SolveChildren | ikkbz_orderer.go:130-134 | the wedges of r's children in ID order |
| Ikkbz.IkkbzOrderer.SolveChild | ikkbz_orderer.go:133 | appends the i-th child's wedge |
| Ikkbz.IkkbzOrderer.Concatenation | ikkbz_orderer.go:116-119 | the flattening loop computes `Flatten` |
| Ikkbz.IkkbzOrderer.TryRoot | ikkbz_orderer.go:113-120 | the order and cost for root i; statistics unchanged; the root is i and the parent array is the tree rooted at i |
| Ikkbz.IkkbzOrderer.Order | ikkbz_orderer.go:106-127 | empty for n ≤ 1, with root and parents untouched; otherwise the order of the first root in 1..n-1 with least cost, holding every relation once, and the orderer is left rooted at n - 1 |
| DPPlans.Trunc | dpsize_orderer.go:76 | float-to-int conversion truncates toward zero |
| DPPlans.KeyEncodes | dpsize_orderer.go:69-78 | with at most 63 relations every relation set is keyable |
| DPPlans.PricedKept | dpsize_orderer.go:76-77 | a group's price depends only on its parts |
| DPPlans.ExtendKeeps | dpsize_orderer.go:71-77 | adding a join keeps every earlier group, cost and cardinality |
| DPPlans.OfferGrows | dpsize_orderer.go:49-79 | a join is added exactly when it improves; otherwise nothing changes |
| DPPlans.LeafKeepsBuilt | dpsize_orderer.go:33-36 | a leaf at cost 0 with its cardinality keeps every group a plan |
| DPPlans.JoinIsPlan | dpsize_orderer.go:52-77 | a joinable pair's join is a plan |
| DPPlans.ExtendPriced | dpsize_orderer.go:76-77 | the added join holds its cost and truncated cardinality |
| DPPlans.OfferKeepsBuilt | dpsize_orderer.go:49-79 | offering a pair keeps every group a plan |
| DPPlans.PlanKept | dpsize_orderer.go:49-79 | plans stay plans as the memo grows |
| DPPlans.LevelGrows | dpsize_orderer.go:73 | level lists stay valid as the memo grows |
| DPPlans.TableGrows | dpsize_orderer.go:78 | filing the new join keeps the table consistent |
| DPPlans.CompleteGrows | dpsize_orderer.go:72-78 | filing the new join keeps every filed set listed |
| DPPlans.DistinctGrows | dpsize_orderer.go:72-73 | listing a join only for a new set keeps the list free of repeated sets |
| DPPlans.ListedGrows | dpsize_orderer.go:72-78 | the level list gets a join only for a new set; every listed set stays filed, none twice, and every filed set stays listed |
| DPPlans.OfferKeepsLevel | dpsize_orderer.go:69-79 | level, table and list stay consistent; no set is listed twice |
| DPPlans.OfferKeepsBest | dpsize_orderer.go:69-79 | every tried pair is no cheaper than the kept plan |
| DPPlans.CostKept | dpsize_orderer.go:62-67 | a pair's cost reads only its own groups |
| DPPlans.NewJoinKept | dpsize_orderer.go:70-78 | an added join is the kept plan for its pair |
| DPPlans.RejectedKept | dpsize_orderer.go:70 | a rejected joinable pair already has a plan no dearer |
| DPPlans.KeptGrows | dpsize_orderer.go:70-78 | replacing a plan only by a strictly cheaper one keeps earlier bounds |
| DPPlans.OfferKeeps | dpsize_orderer.go:49-79 | one offer keeps plans, list, table, tried pairs and `finalIdx` |
| DPPlans.CoveredStep | dpsize_orderer.go:48-80 | one more right group is covered |
| DPPlans.CoveredAllStep | dpsize_orderer.go:47-81 | one more left group is covered |
| DPPlans.LevelsGrow | dpsize_orderer.go:44-73 | earlier level lists stay valid |
| DPPlans.TriesStep | dpsize_orderer.go:45-82 | one more split s1 is covered |
| DPPlans.TriedOptimal | dpsize_orderer.go:42-83 | after all splits the level is optimal |
| DPPlans.UnitsLevel | dpsize_orderer.go:31-37 | the leaves form the size-1 list |
| DPPlans.LinkedJoins | dpsize_orderer.go:42-83 | two linked relations force a join at size 2 |
| DPPlans.SingletonsFiled | dpsize_orderer.go:32 | each relation is filed under its singleton set |
| DPPlans.PlanFormats | dpsize_orderer.go:85 | every plan renders |
| DPPlans.BuiltAgree | dpsize_orderer.go:62-77 | a plan's cost and cardinality stay fixed as the memo grows |
| DPPlans.OptimalGrows | dpsize_orderer.go:42-83 | a level stays optimal as later levels add joins |
| DPPlans.OptimalAppend | dpsize_orderer.go:84 | appending a larger level's list keeps earlier levels optimal |
| DPPlans.ListedExtends | dpsize_orderer.go:72-78 | a level's list stays consistent with its table as later levels add groups |
| DPPlans.CompleteExtends | dpsize_orderer.go:72-78 | every filed set stays listed as later levels add groups |
| DPPlans.SolvedKeeps | dpsize_orderer.go:42-84 | an earlier level stays consistent, listed and optimal when a new level is solved |
| DPPlans.SolvedKeepsAll | dpsize_orderer.go:42-84 | every earlier level stays consistent, listed and optimal when a new level is solved |
| DPPlans.SolvedStep | dpsize_orderer.go:42-84 | a newly solved level joins the solved levels: level 1 stays the leaves, and every level stays consistent, listed one plan per filed set, and optimal over the final memo |
| DPPlans.SolvedLinked | dpsize_orderer.go:42-84 | once level 2 is solved, two linked relations leave neither its table nor its list empty |
| DPSize.DPSizeOrderer.constructor | dpsize_orderer.go:18-25 | a fresh forest and empty maps |
| DPSize.DPSizeOrderer.Consider | dpsize_orderer.go:49-79 | the memo, table and list become `Offer`'s |
| DPSize.DPSizeOrderer.TryPair | dpsize_orderer.go:49-79 | one pair keeps the level invariant and is tried |
| DPSize.DPSizeOrderer.JoinWith | dpsize_orderer.go:48-80 | every joinable pair of l with `rights` is tried |
| DPSize.DPSizeOrderer.JoinAll | dpsize_orderer.go:47-81 | every joinable pair of `lefts` × `rights` is tried |
| DPSize.DPSizeOrderer.SolveLevel | dpsize_orderer.go:43-82 | level s lists one plan for each filed set and no set twice, and the filed plan is no dearer than any joinable pair from the smaller lists |
| DPSize.DPSizeOrderer.AddUnit | dpsize_orderer.go:33-36 | appends the leaf with cost 0 and its cardinality |
| DPSize.DPSizeOrderer.AddLeaves | dpsize_orderer.go:30-37 | succeeds exactly with at most 63 relations; leaves in order, each filed under its singleton |
| DPSize.DPSizeOrderer.Order | dpsize_orderer.go:27-88 | fails above 63 relations or when no join is made; otherwise every group is a plan and the result is 0, any linked pair of relations guarantees a join, level 1 lists the leaves, every later level lists one plan per filed set, and every level's filed plans are no dearer than any joinable pair from the lists of smaller sizes |
| DPRelist.OfferCurrentKeeps | dpsize_orderer.go:69-79 | the corrected step changes memo and table exactly as the source does, keeps level, table and list consistent, and keeps every listed group the filed plan for its set |
| DPRelist.SwapKeeps | dpsize_orderer.go:72-78 | swapping the filed plan for the new join keeps the level, the list and the listed plans current |
| DPRelist.CurrentGrows | dpsize_orderer.go:72-78 | listing a join for a new set keeps the listed plans current |
| DPRelist.SwapLevel | dpsize_orderer.go:72-73 | swapping in a join of the level's size keeps the level |
| DPRelist.SwapListed | dpsize_orderer.go:72-78 | swapping keeps every listed set filed and none twice |
| DPRelist.SwapComplete | dpsize_orderer.go:72-78 | swapping keeps every filed set listed |
| DPRelist.SwapCurrent | dpsize_orderer.go:72-78 | swapping keeps every listed group the filed plan for its set |
| DPRelist.CurrentCheapest | dpsize_orderer.go:62-78 | with current lists, no tried pair for a listed set is cheaper than the listed plan |
| DPRelist.ChainBuilt | dpsize_orderer.go:27-78 | the chain state's groups are all plans |
| DPRelist.ChainArena | join/join.go:41-63 | the chain state is an arena |
| DPRelist.ChainLeaf | dpsize_orderer.go:33-36 | the chain's leaves are plans |
| DPRelist.ChainPair | dpsize_orderer.go:62-78 | A⋈B and B⋈C are plans: joinable pairs with the costs and truncated cardinalities the source computes |
| DPRelist.ChainTriple | dpsize_orderer.go:62-78 | A⋈(B⋈C) is a plan: a joinable pair with the cost and cardinality the source computes |
| DPRelist.ChainLevel | dpsize_orderer.go:72-78 | level 3 lists A⋈(B⋈C), the plan filed for {A, B, C} |
| DPRelist.ChainOffer | dpsize_orderer.go:69-79 | offered C⋈(A⋈B), the source files the join but keeps A⋈(B⋈C) listed; the corrected step lists the join |
| DPRelist.ChainCosts | dpsize_orderer.go:62-78 | the listed plan costs 40 and the filed one 30; D joined with them costs 2040 and 2030 |
| DPRelist.StaleListing | dpsize_orderer.go:69-79 | as written, the list keeps a plan that is no longer filed for its set, and level 4 joins D with it at 2040 where the filed plan gives 2030 |
| DPRelist.FixedListing | dpsize_orderer.go:69-79 | corrected, the listed plan is the filed one, which D joins at 2030 |

## Left out

- Floating point: all arithmetic is exact `real`. The Go code's rounding is
  not modelled. So R([4]) is -1.5 here, where the test expects
  -1.4999999999999998.
- Ikkbz.IkkbzOrderer.R: the division by a zero C is not modelled. C is
  proved positive under positive statistics, and the rank is only used there.
- Ikkbz.IkkbzOrderer.Order: requires positive statistics and a ghost rooting
  for every root it tries, that is, a connected tree-shaped query graph. Two
  other cases are not modelled. On a graph with a cycle the Go code may
  panic or loop. On a graph without a cycle that is not connected it does
  neither: `SetRoot` (ikkbz_orderer.go:18-52) walks back to the root, reads
  its parent 0 and stops, leaving parent 0 for every relation it did not
  reach; `solveWedge` sees only the reached relations through `ChildrenOf`
  (lines 96-104), and `Order` (lines 106-127) returns an order that silently
  leaves the others out. With three relations and one predicate between 1
  and 2, root 1 yields an order over 1 and 2 only.
- Ikkbz.IkkbzOrderer.SolveWedge: the compressed list is computed and then
  dropped, as in the source, and the uncompressed list is returned. Relation
  n is never tried as a root, as in the source (the loop stops at n - 1).
- Ikkbz.IkkbzOrderer.SetRoot: the "not a tree" panic is proved unreachable
  given a connected tree. On other graphs its behaviour is not modelled:
  with a cycle it may panic or not terminate, and on a disconnected graph
  without a cycle it stops with parent 0 for every relation outside the
  root's component.
- Ikkbz.IkkbzOrderer.T and Ikkbz.IkkbzOrderer.C require a root to be set. In
  the source they reach the "root not set" panic through
  `RootedSelectivity`, which models that panic as `None`.
- The `Perm` callback is replaced by the sequence of arrangements it
  receives. `BruteForceOrder` costs them after the enumeration rather than
  during it. This is the same order and the same decisions.
- Ordering.Orderer.BruteForceOrder: the optimality clauses assume positive
  statistics. With a zero or negative cost, Go's `bestCost == 0` test
  conflates "none yet" with a real cost of 0; only "an emitted ordering" is
  stated then. The test's expected order [2,4,1,3,5,6] is proved to cost
  220058, but the model does not evaluate all 720 orders to show that it is
  the first cheapest.
- Ordering.Orderer.BruteForceOrder requires at least one relation: with none,
  `Cost` indexes an empty order.
- DPPlans.Trunc: assumes that `schema.Cardinality`, which dpsize_orderer.go:76
  converts a join's estimated cardinality to, is an integer type, as
  `Cardinality` (orderer.go:7) and a relation's `card` (schema/schema.go:10)
  are. The schema package that defines it is not part of this model; were it
  a floating-point type, nothing would be truncated.
- DPSize.DPSizeOrderer.Order: promises optimality of each level over the
  plans listed for smaller sizes only. Those lists keep the first plan found
  per set (dpsize_orderer.go:72-74), so the final plan need not be the
  cheapest over all join trees; see Findings.
- Ordering.Orderer.GetSelectivity, Ordering.Orderer.Adjacent and
  Ordering.Orderer.AddPredicate require two distinct relations in 1..n. The
  self-pair panic of `indexPair` they reach (orderer.go:38-40) is modelled
  only in `Ordering.IndexPair`, which returns `None` there.
- Ordering.Orderer.Cost requires an order of distinct relations in 1..n. A
  repeated relation reaches the same self-pair panic through
  `GetSelectivity`, and that path is not modelled.
- JoinForest.Forest.FormatString: the parse round trip holds only when no
  relation name contains a parenthesis or the join symbol. Other names can
  make two different trees print alike, and no claim is made for them.
- DPsize's schema calls are parameters of a `Catalog` value: `NumRels`,
  `Cardinality`, `SubgraphsAdjacent`, `ComplexSelectivity` and the relation
  names. The schema package that defines them is not part of this model.
- DPSize.DPSizeOrderer.Order: the Go code prints the rendering of the last
  join and returns 0. The model returns `Some(0)` after a rendering succeeds
  and does not model the printing. `None` stands for the panics: relation
  64, or no join made, which renders group 0.
- The `units` map of DPsize is filled but never read afterwards. The model
  fills it and states its contents, nothing more.
- `Forest.AsJoin` of join/forest.go is left out: the `Join` type it returns
  is not part of this model.
- The `j` back-pointer of each group is not modelled; no operation reads it.
- Relation sets (`util.FastIntSet`) are `set<int>`. Its `Next` iteration is
  modelled only through `RelSetMap.Next`.
- `Forest.String` prints relation names through the schema. The name lookup
  is the forest's `name` function.

## Findings

| source | as written | input that shows it | evidently intended | confidence | as-written member | corrected member |
|---|---|---|---|---|---|---|
| dpsize_orderer.go:72-74 | a join is appended to `subproblems[s]` only when its set had no plan; a strictly cheaper join found later replaces the plan in `bests[s]` but not in the list, so larger sizes keep building on the first plan found | the chain A-B-C-D with cardinalities 1, 10, 2 and 100 and every selectivity 1: level 3 lists A⋈(B⋈C) at cost 40 and then files C⋈(A⋈B) at cost 30 without listing it, so level 4 can only reach D⋈(A⋈(B⋈C)) at 2040, not D⋈(C⋈(A⋈B)) at 2030 | the cheaper join takes the listed plan's place, so every listed group is the plan kept for its set | high; not executed | DPRelist.StaleListing | DPRelist.OfferCurrentKeeps |
