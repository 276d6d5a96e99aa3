# Verified models of the algorithmic cores

Dafny models of the parts of this repository whose correctness is not plain from reading them, with
proofs of what they are for. Each file is one component:

- `Graphs`, `Digraph`: reachability, and the set closure over a relation by depth-first search with
  one stack (`digraph`, `traverse` in yacc.py).
- `Grammars`, `Fixpoints`: grammars and derivations; the loops for nullable symbols, terminating
  symbols and FIRST sets.
- `LrItems`, `LrAutomaton`, `LrTable`, `LrEngine`: item closure and goto, the item automaton, tables
  with their conflict rules, and the two-stack parser. `LrComplete` proves that over tables without
  conflicts it accepts every sentence, `LrLookaheads` that the computed LALR lookaheads are enough for
  that, and `LrDecides` that it then ends on every input and accepts nothing else. `LrWitness` has two
  grammars on which the conflict rules go wrong.
- `Blockwise`: the CoAP block-wise request handler over a channel that loses, duplicates and delays
  frames (RFC 7959, section 2).
- `IfFeature`: the if-feature expression parser and the evaluation of its tree (RFC 7950, section
  7.20.2).
- `Base128`, `Crc32`, `Mup1`: the serial link layer, its digits and checksums.
- `KeyOrder`, `Bits`, `YangTree`, `YangCodec`, `IidText`, `Iid`: the YANG data codec. Key leaves are
  ordered in place, bit sets are packed (RFC 9254, section 6.7), trees are keyed by SID deltas, and
  instance identifiers (RFC 7951, section 6.11) become a SID with key values.
- `CoapFrame`: the CoAP message printer and parser (RFC 7252, sections 3 and 3.1).
- `Dtls`: the DTLS client's handshake and its change of security parameters (RFC 6347, section 4.2).
- `Identity`: the identity graph, searched, checked for cycles, built and closed.
- `Common`: shared types.

Code that changes fields or lists is modelled by classes and methods with loops, and proved against
functions or invariants; the lemmas then say what those functions mean. An exception is a value: an
`Option` that is `None`, a Boolean, or an `Exit`.

Where the code does something that its documentation or its callers would not expect, the model keeps
the code, and a lemma says exactly when the expectation holds:

- A nonassoc tie between a shift and a reduction is lost when another item with the same shift comes
  later in the state, since the entry that was set to None counts as free (`LrTable.ShiftReduce`;
  `LrWitness.TieIsLost` and `LrWitness.NoneAlone` have grammars that get there).
- The includes relation of the lookahead computation is described for productions followed from their
  start. The code follows an item for the same nonterminal from wherever its dot is, and writes the dot
  into the right sides that it compares (`LrLookaheads.Includes`, `LrLookaheads.Matches`). Neither loses
  a lookahead that is needed (`LrLookaheads.LookaheadsSuffice`).
- A matching reply that is neither an acknowledged success nor an error makes the next block carry a
  number that does not fit its payload (`Blockwise.NumberFitsIff`). After the last of several blocks it
  leaves a transfer that cannot end normally (`Blockwise.OverrunIff`, `Blockwise.OverrunForever`). A
  transfer that does end normally may have sent a block twice and another one not at all: it has sent each
  one in its place iff every such reply was an acknowledged success (`Blockwise.SentIffAcknowledged`).
- The words `and` and `or` are accepted as feature names in operand position, since the identifier
  pattern matches them; the grammar in `IfFeature` says so.
- A key that is encoded as null or false is missing from the printed instance identifier, keys that are
  left out move the values of later ones forward, and a key name with a dot is cut (`Iid.RoundTrip`,
  `IidText.KeyReadIff`).
- A token's length is printed and its bytes are not, so that no message with a token comes back, and
  options of more than 268 bytes are printed in a form on which the parser raises
  (`CoapFrame.RoundTripIff`).
- The ephemeral key is good for one derivation. A later handshake never becomes secure, and if it gets
  as far as the key exchange it ends in an exception that nothing catches
  (`Dtls.Handshake.DoHandshake`). Against a server that numbers its messages from 0 again it does not
  get there, since the expected number is never reset (`Dtls.Handshake.Rx`).
- Application data is delivered without a look at is_secure: data in a record of epoch 0 before any
  handshake. What is delivered was protected iff the record is of epoch 1 (`Dtls.Handshake.RxRecord`,
  `Dtls.Handshake.ProtectedIff`).

## Model

| member | source | states |
|---|---|---|
| Digraph.Digraph | support/pyang/pyang/yacc.py:2050-2059 | for a finite X closed under R the result has exactly the nodes of X, and F[x] holds a iff a is in FP(y) for some y that x reaches; cyclic and acyclic R alike, and it terminates |
| Digraph.Run.Traverse | support/pyang/pyang/yacc.py:2061-2082 | one call keeps the Tarjan invariant, changes nothing that was visited before, and leaves x either finished with its exact set or pending below an older node that it reaches |
| Digraph.Run.FollowEdge | support/pyang/pyang/yacc.py:2068-2074 | handling one more edge keeps the invariant of the node being traversed and covers that edge |
| Digraph.Run.UnionInto | support/pyang/pyang/yacc.py:2072-2074 | the loop adds exactly the missing elements of F[y] to F[x] and touches no other set |
| Digraph.Run.PopComponent | support/pyang/pyang/yacc.py:2075-2082 | popping down to x gives every popped node depth MAXINT and the set of x, and the invariant holds again |
| Digraph.RootCollects | support/pyang/pyang/yacc.py:2075-2077 | when the depth of x is its own, x has collected FP of everything it reaches |
| Digraph.RootExact | support/pyang/pyang/yacc.py:2075-2082 | at a component root the set of x is the exact one for every node of the popped segment |
| Digraph.MergeActive | support/pyang/pyang/yacc.py:2071-2074 | taking the minimum depth and the union after visiting y keeps every handled edge covered and handles one more |
| Digraph.SmallestSolution | support/pyang/pyang/yacc.py:2036-2048 | the sets computed solve F(x) = FP(x) + union of F(y) over x R y, and every solution contains them |
| Fixpoints.ComputeNullableNonterminals | support/pyang/pyang/yacc.py:2249-2265 | terminates, and n is in the result iff n derives the empty string |
| Fixpoints.Terminates | support/pyang/pyang/yacc.py:1691-1702 | the inner loop says yes iff every symbol of the right side is marked |
| Fixpoints.Propagate | support/pyang/pyang/yacc.py:1687-1710 | one pass adds only marks that are right, reports a change iff a mark was added, and without a change no production asks for another mark |
| Fixpoints.TerminatingMarks | support/pyang/pyang/yacc.py:1670-1713 | the marks stabilise, and n is marked iff n derives a string of terminals |
| Fixpoints.InfiniteCycles | support/pyang/pyang/yacc.py:1670-1725 | the list names exactly the nonterminals that derive no string of terminals |
| Fixpoints.StableComplete | support/pyang/pyang/yacc.py:1685-1713 | whatever derives a string over the base alphabet is in every stable marking that holds the base |
| Fixpoints.FirstOf | support/pyang/pyang/yacc.py:1799-1827 | f is in the result iff f is FIRST of some symbol behind which only nullable ones stand, or is the empty mark and all are nullable; without repetition |
| Fixpoints.FirstPass | support/pyang/pyang/yacc.py:1851-1858 | one pass adds only entries that are right and reports whether it added any; without a change the sets are stable |
| Fixpoints.ComputeFirst | support/pyang/pyang/yacc.py:1834-1862 | terminates; t is in First[n] iff n derives a form beginning with t, and the empty mark is in First[n] iff n derives the empty string |
| Fixpoints.SoundForm | support/pyang/pyang/yacc.py:1799-1827 | if the sets are sound, an entry in FIRST of a form really begins (or empties) something the form derives |
| Fixpoints.StableFront | support/pyang/pyang/yacc.py:1850-1860 | under stable sets rewriting a form brings nothing new to its front |
| LrItems.AppendNew | support/pyang/pyang/yacc.py:2141-2147 | appends exactly the productions asked for that were not added before, in order, and says whether there were any |
| LrItems.Lr0Closure | support/pyang/pyang/yacc.py:2132-2149 | the two nested loops compute the closure; the second pass over the list adds nothing |
| LrItems.ClosureLeast | support/pyang/pyang/yacc.py:2132-2149 | the closure holds I, is closed under adding the productions an item expects, and is inside every closed superset of I |
| LrItems.Lr0Goto | support/pyang/pyang/yacc.py:2158-2190 | the loop collects the advanced items over x in order, and the result is the closure of that list |
| LrItems.GotoItems | support/pyang/pyang/yacc.py:2172-2185 | an item of the goto set with the dot past 0 steps one back into the source set over x, and every such item is there; the rest start a production |
| LrItems.GotoOk | support/pyang/pyang/yacc.py:2158-2190 | goto sets of sets without repetition are without repetition and hold items of the grammar only |
| LrAutomaton.UsedSymbols | support/pyang/pyang/yacc.py:2206-2210 | the symbols collected for a state include every one over which its goto set is not empty |
| LrAutomaton.Lr0Items | support/pyang/pyang/yacc.py:2193-2219 | terminates on every grammar; the collection starts with the closure of the start item, has no state twice, every later state is a goto of an earlier one, and every non-empty goto is in it |
| LrAutomaton.NothingEntersStart | support/pyang/pyang/yacc.py:2193-2219 | no transition leads to state 0 |
| LrAutomaton.StartOnlyFirst | support/pyang/pyang/yacc.py:2193-2219 | the initial item of the augmented production is in state 0 only |
| LrAutomaton.StepBack | support/pyang/pyang/yacc.py:2172-2181 | along a transition, an item with the dot past 0 came from the item one step before it |
| LrAutomaton.HasTransition | support/pyang/pyang/yacc.py:2206-2217 | a state with a fresh item of production p has a transition over its name, which the parser takes after reducing by p |
| LrTable.EnterReduces | support/pyang/pyang/yacc.py:2573-2625 | the loop over the lookaheads enters the reduction into each entry by the conflict rules, or fails where the source raises |
| LrTable.EnterItem | support/pyang/pyang/yacc.py:2561-2673 | one item is entered as accept, reduction or shift under the conflict rules |
| LrTable.BuildActions | support/pyang/pyang/yacc.py:2548-2673 | each entry of the row is the fold of the conflict rules over the candidates of the state in order; it fails iff some fold fails |
| LrTable.RowSound | support/pyang/pyang/yacc.py:2561-2673 | whatever the conflicts decide, a positive entry is the goto state over that symbol, a negative one a complete item of the state, and 0 only the completed start item |
| LrTable.FailsOnlyAtAccept | support/pyang/pyang/yacc.py:2604-2621 | in states of the automaton the exceptions are raised only for an accept and another action on $end: shift/shift clashes cannot happen |
| LrTable.ReduceReduce | support/pyang/pyang/yacc.py:2604-2619 | among reductions alone the one whose production stands first in the grammar file wins, the earliest among equals |
| LrTable.ShiftReduce | support/pyang/pyang/yacc.py:2644-2673 | a conflict of one shift with one reduction, by all counts and orders of the items: reduce, shift, or None for a nonassoc tie; the tie is lost exactly when an item with the same shift comes after the one that made it |
| LrWitness.TieIsLost | support/pyang/pyang/yacc.py:2644-2673 | a grammar of four productions whose automaton has a state with one reduction and two shifts on a nonassociative token: whatever tables come out of the construction, the entry is the shift |
| LrTable.BuildGotos | support/pyang/pyang/yacc.py:2695-2707 | the goto row holds n iff the state has a transition over the nonterminal n, and leads there |
| LrTable.BuildTables | support/pyang/pyang/yacc.py:2545-2712 | the loop over the states: it raises iff some state does, and otherwise every row is sound, the goto rows are exact, and each row is the fold of its conflicts |
| LrLookaheads.FindNonterminalTransitions | support/pyang/pyang/yacc.py:2278-2288 | each pair of a state and a nonterminal that one of its items expects, once |
| LrLookaheads.DrRelation | support/pyang/pyang/yacc.py:2298-2315 | the terminals expected behind the transition, each once, and the end mark behind the start symbol in state 0 |
| LrLookaheads.ReadsRelation | support/pyang/pyang/yacc.py:2322-2336 | the transitions over nullable nonterminals that start where this one leads |
| LrLookaheads.FollowItem | support/pyang/pyang/yacc.py:2385-2409 | following an item leads to the state its remaining symbols spell; exactly the transitions passed whose rest can vanish are noted |
| LrLookaheads.FindProduction | support/pyang/pyang/yacc.py:2411-2424 | exactly the items of the final state with that name and length whose symbols before the dot agree |
| LrLookaheads.ComputeLookbackIncludes | support/pyang/pyang/yacc.py:2365-2439 | both dictionaries hold exactly the lookback and the includes relation |
| LrLookaheads.ComputeReadSets | support/pyang/pyang/yacc.py:2445-2449 | a is in the read set of a transition iff some number of reads steps lead to one that reads it directly |
| LrLookaheads.ComputeFollowSets | support/pyang/pyang/yacc.py:2467-2471 | a is in the follow set iff some number of includes steps lead to a transition with a in its read set |
| LrLookaheads.AddLookaheads | support/pyang/pyang/yacc.py:2485-2494 | an item gets a list iff it looks back at some transition, and the list holds exactly the follow sets of those |
| LrLookaheads.AddLalrLookaheads | support/pyang/pyang/yacc.py:2503-2520 | the whole computation: entries and lookaheads of all items exactly |
| LrLookaheads.ReadsFirst | support/pyang/pyang/yacc.py:2298-2336 | whatever terminal strings derived behind a transition begin with is in its read set |
| LrLookaheads.FollowsInContext | support/pyang/pyang/yacc.py:2365-2471 | in every right sentential form whose left part leads to a transition, the next terminal is in its follow set |
| LrLookaheads.LookaheadsSuffice | support/pyang/pyang/yacc.py:2503-2520 | in every automaton the computed lookaheads, and any more, hold each token that can follow a right side on the stack |
| LrLookaheads.CompleteHasEntry | support/pyang/pyang/yacc.py:2570 | every complete item of every state has a lookahead list, so that looking it up never raises |
| LrLookaheads.LrParseTable | support/pyang/pyang/yacc.py:2527-2712 | the construction from the grammar alone: the lookaheads are the computed ones, the tables are sound and folded, and it raises only in a state that has the completed start item and a reduction with $end among its lookaheads |
| LrEngine.SetDefaultedStates | support/pyang/pyang/yacc.py:311-316 | exactly the states whose only entry is a reduction get that default; it fails iff some state has None as its only entry |
| LrWitness.NoneAlone | support/pyang/pyang/yacc.py:311-316 | another such grammar, with a state that has None as its only entry, so that the search for defaulted states raises |
| LrEngine.TreeDerives | support/pyang/pyang/yacc.py:1088-1154 | the symbol at the root of a valid tree derives the leaves of the tree |
| LrEngine.PathBack | support/pyang/pyang/yacc.py:1100-1120 | a complete item on top of a path of the automaton has its right side on the symbol stack, and its initial item in the state below |
| LrEngine.AcceptStack | support/pyang/pyang/yacc.py:1169-1172 | with the completed start item on top, the stack is one tree of the start symbol over the bottom marker |
| LrEngine.ShiftKeeps | support/pyang/pyang/yacc.py:1074-1086 | a shift keeps the states a path spelled by the symbols, and stack plus unread tokens equal to the input |
| LrEngine.ReduceKeeps | support/pyang/pyang/yacc.py:1088-1154 | a reduction is always possible and keeps the same invariant, with a valid tree on top |
| LrEngine.AcceptMeans | support/pyang/pyang/yacc.py:1169-1172 | at entry 0 the symbol on top is a tree of the start symbol with the whole input as its leaves |
| LrEngine.Parser.Fetch | support/pyang/pyang/yacc.py:1056-1064 | the lookahead is read only in a state without default and only if none is held; past the input it is $end |
| LrEngine.Parser.Shift | support/pyang/pyang/yacc.py:1075-1086 | pushes the lookahead and the new state |
| LrEngine.Parser.Reduce | support/pyang/pyang/yacc.py:1088-1154 | replaces the right side by a node and pushes the goto state of the state below |
| LrEngine.Parser.Step | support/pyang/pyang/yacc.py:1050-1174 | one round of the loop: accepts with a valid tree of the whole input, reports an error, or goes on with the invariant |
| LrEngine.Parser.Parse | support/pyang/pyang/yacc.py:1043-1174 | if the loop returns at entry 0, the result is a valid tree of the start symbol whose leaves are the input, so the start symbol derives the input; the run is the given number of rounds, or fewer of which the last one returned |
| LrComplete.FoldAgrees | support/pyang/pyang/yacc.py:2561-2673 | when all candidates for a symbol ask for one action, that action is the entry |
| LrComplete.ContextDerives | support/pyang/pyang/yacc.py:1088-1154 | the contexts by which a following token is defined are forms that the start symbol derives |
| LrComplete.FullLookaheadsCover | support/pyang/pyang/yacc.py:2561-2673 | lookaheads of all terminals and the end mark meet that hypothesis in every automaton, so that it can be met |
| LrComplete.TreeAccepted | support/pyang/pyang/yacc.py:1043-1174 | over tables without conflicts whose lookaheads hold every token that can follow in a right sentential form, the parser returns each parse tree for its leaves, after exactly one round for each node |
| LrComplete.SentencesAccepted | support/pyang/pyang/yacc.py:1043-1174 | over such tables whatever the start symbol derives has a parse tree, and is accepted with it in every larger number of rounds, with default reductions and without |
| LrComplete.Unambiguous | support/pyang/pyang/yacc.py:2548-2673 | a grammar with such tables gives no sentence two parse trees |
| LrDecides.ItemsHaveContexts | support/pyang/pyang/yacc.py:2132-2245 | when every nonterminal derives a terminal string, each item at the end of a path of the automaton occurs in a right sentential form that begins with the path |
| LrDecides.BuildBelow | support/pyang/pyang/yacc.py:1043-1174 | on an input that begins with the leaves of the trees left of a position in a right sentential form, the parser builds exactly those trees, one node each round |
| LrDecides.Completed | support/pyang/pyang/yacc.py:1088-1154 | whatever has been shifted when a node is on top can be completed to a sentence, on which the parser stands with the same tokens shifted after the same number of rounds |
| LrDecides.AlikeRun | support/pyang/pyang/yacc.py:1043-1174 | on two inputs that agree up to the kind of the next token the runs agree until that token is shifted |
| LrDecides.Decides | support/pyang/pyang/yacc.py:1043-1174 | over such tables, when every nonterminal derives a terminal string as infinite_cycles checks: the parser ends on every input, accepts with a tree of the whole input iff the start symbol derives it, and reports a syntax error otherwise |
| LrDecides.GeneratedDecides | support/pyang/pyang/yacc.py:2527-2712 | the same for the generated parser: with the computed lookaheads, a grammar without conflicts is all that is asked |
| Blockwise.RequestOverIff | support/libeasy/handler/coap.rb:47-60 | a matching reply makes the request done iff all its frames are out, and the last of them was acknowledged with a success |
| Blockwise.ReqBlockWise.NextStep | support/libeasy/handler/coap.rb:101-201 | the new fields and the answer are those of the step function, in each of its branches, an exception past the end of the payload included |
| Blockwise.ReqBlockWise.RxData | support/libeasy/handler/coap.rb:62-93 | the new fields and the answer are those of the receive function, also for unawaited and error replies |
| Blockwise.SixCopies | support/libeasy/handler/coap.rb:103-117 | in every run at all no frame goes out more than six times, each time unchanged, and only the last new one is repeated |
| Blockwise.SixPerId | support/libeasy/handler/coap.rb:101-133 | when message IDs are drawn without repetition, no ID goes out with two frames, nor more than six times |
| Blockwise.Expires | support/libeasy/handler/coap.rb:103-117 | in every run, when the timer has run out: the last frame goes out again and the timer is set three seconds on, up to the sixth copy; after that the handler gives up |
| Blockwise.StillWaits | support/libeasy/handler/coap.rb:118-122 | before that nothing goes out and nothing changes |
| Blockwise.Unanswered | support/libeasy/handler/coap.rb:103-117 | n expiries without an answer bring n more copies of the last frame and of no other, and the expiry after the sixth copy gives up |
| Blockwise.SetsTimer | support/libeasy/handler/coap.rb:124-201 | a frame that goes out for the first time sets the timer three seconds on |
| Blockwise.FrameFields | support/libeasy/handler/coap.rb:124-187 | the fields of every frame of a run: code, accept and content type of the caller, a block1 option on the parts of a divided payload, and in block2 the number of the block wanted |
| Blockwise.AnsweredFinishes | support/libeasy/handler/coap.rb:47-201 | as long as some copy of each frame is answered in time, whatever is lost, repeated or late: each answer lets the next frame go out, and after the answer to the last one the transfer is finished and exact |
| Blockwise.FailsIff | support/libeasy/handler/coap.rb:85-117 | a run fails exactly at an awaited error or at an expiry after six copies of one frame |
| Blockwise.StepInv | support/libeasy/handler/coap.rb:62-201 | one event of the lossy, duplicating and delaying channel keeps the invariant of the transfer |
| Blockwise.RunInv | support/libeasy/handler/coap.rb:62-201 | the invariant holds after every run over such a channel with an answering server |
| Blockwise.TransferExact | support/libeasy/handler/coap.rb:47-201 | a run that finishes without giving up, an error or an exception has sent payloads that concatenate to the request, and has received the body exactly once |
| Blockwise.BlocksExact | support/libeasy/handler/coap.rb:157-187 | in a finished transfer block1 numbers times the size are the offsets of the blocks, and more is 0 on the last one only |
| Blockwise.NumberFitsIff | support/libeasy/handler/coap.rb:68-71 | before the last request block, after any matching reply that is not an error: the next block carries the count of blocks sent, and the payload from the acknowledged offset; number times size is that offset iff the reply is an acknowledged success |
| Blockwise.SentIffAcknowledged | support/libeasy/handler/coap.rb:62-201 | on every run at all, whatever is lost, repeated, invented or answered: a transfer that ends normally has sent one request frame for each awaited reply to one, the last acknowledged; each block went out once and from its place iff all these replies were acknowledged successes; then the bytes sent are the payload, and otherwise only where blocks from other places hold the same bytes |
| Blockwise.ProgressStep | support/libeasy/handler/coap.rb:62-201 | every event keeps the account of frames sent and replies acknowledged, unless the transfer has failed or can only fail |
| Blockwise.OverrunIff | support/libeasy/handler/coap.rb:165-176 | after the last of several blocks: the count of bytes sent passes the payload iff the reply is not an acknowledged success |
| Blockwise.OverrunForever | support/libeasy/handler/coap.rb:47-201 | a transfer that has counted past its payload never ends normally, whatever happens; it goes on until it gives up, meets an error or raises |
| Blockwise.OverrunRaises | support/libeasy/handler/coap.rb:166-171 | acknowledging such a transfer makes the next step raise, for want of a slice past the end |
| Blockwise.CanFinish | support/libeasy/handler/coap.rb:47-201 | from every state of the invariant some run of answered frames finishes the transfer |
| IfFeature.Parser.Parse | support/pyang/pyang/syntax.py:288-294 | a tree is returned iff the tokens are in the language of the grammar, and then evaluates to the value the layered reading gives, for every feature assignment |
| IfFeature.Parser.X | support/pyang/pyang/syntax.py:242-251 | a level is read to its end iff it has one, its operators are all applied, and the tree on top has the value of the level |
| IfFeature.Parser.Y | support/pyang/pyang/syntax.py:253-268 | an operand lands on the stack with its value, a not lets the inner level finish the whole one, and no empty stack is popped |
| IfFeature.Parser.PushOperator | support/pyang/pyang/syntax.py:270-273 | applying the operators that bind tighter keeps the value of what is pending |
| IfFeature.Parser.Unwind | support/pyang/pyang/syntax.py:250-251 | applying everything pending gives one tree whose value is the or of the ands of the operands |
| IfFeature.Parser.PopOperator | support/pyang/pyang/syntax.py:275-280 | one operator takes its operands off the stack, the later one first |
| IfFeature.AcceptsLanguage | support/pyang/pyang/syntax.py:221-225 | the one-pass reading consumes the whole list iff the list is in the language of x in the rewritten grammar |
| IfFeature.RefOrVal | support/pyang/pyang/statements.py:1301-1311 | the value with right-grouped operators is the value of not over and over or |
| IfFeature.RefOrEnd | support/pyang/pyang/syntax.py:215-225 | the one-pass reading and the layered reading stop at the same token |
| Base128.EncodeIs | support/libeasy/handler/mup1.rb:73-90 | the table of 128 digits is four runs of consecutive bytes |
| Base128.ToHashIs | support/libeasy/handler/mup1.rb:93 | the decoding table leads each digit back to its index, and has nothing else |
| Base128.ToBase128 | support/libeasy/handler/mup1.rb:351-360 | five digits, the heaviest first, each the table entry for its seven bits |
| Base128.DigitsAre | support/libeasy/handler/mup1.rb:351-360 | the digits are those of v / 2^28, v / 2^21, v / 2^14, v / 2^7 and v, in this order |
| Base128.FromBase128 | support/libeasy/handler/mup1.rb:362-372 | the number the digits spell, or nil for another length or a foreign byte |
| Base128.ReadPrinted | support/libeasy/handler/mup1.rb:351-372 | reading printed digits gives the number modulo 2^35 |
| Base128.RoundTrip | support/libeasy/handler/mup1.rb:351-372 | from_base128 inverts to_base128 iff the number is below 2^35 |
| Base128.PrintRead | support/libeasy/handler/mup1.rb:351-372 | whatever can be read is what its value prints, so that no number has two texts |
| Base128.DigitsAreSafe | support/libeasy/handler/mup1.rb:72-90 | no digit is SOF, EOF, ESC, 0x00 or 0xFF |
| Crc32.TableIs | support/libeasy/handler/mup1.rb:25-70 | each of the 256 table entries is eight bit steps of its index with polynomial 0xEDB88320 |
| Crc32.TableByte | support/libeasy/handler/mup1.rb:344-347 | a byte through the table is a byte through the bitwise definition |
| Crc32.Crc32Calc | support/libeasy/handler/mup1.rb:342-349 | the loop computes the bit-at-a-time reflected CRC of every byte sequence |
| Crc32.Step8Splits | support/libeasy/handler/mup1.rb:346 | eight bit steps act on the low byte and shift the rest down |
| Crc32.FeedInjective | support/libeasy/handler/mup1.rb:344-347 | the same bytes never bring two different registers together |
| Crc32.FeedFour | support/libeasy/handler/mup1.rb:344-347 | feeding four bytes is packing them into the register and stepping 32 times |
| Crc32.BurstDetected | support/libeasy/handler/mup1.rb:342-349 | two different messages that agree outside at most four adjacent bytes never share a CRC |
| Crc32.CheckValue | support/libeasy/handler/mup1.rb:342-349 | the CRC of the digits 1 to 9 is CBF43926, the check value of this CRC |
| Mup1.InternetSumIsZero | support/libeasy/handler/mup1.rb:374-388 | adding the checksum to the words gives zero in one's complement; two carries suffice |
| Mup1.RawIsEven | support/libeasy/handler/mup1.rb:193-201 | in internet mode the padded frame has whole words, so that no byte escapes the checksum |
| Mup1.EscapeAll | support/libeasy/handler/mup1.rb:313-327 | the escaping loop |
| Mup1.Tx | support/libeasy/handler/mup1.rb:290-340 | the encoding of the frame for at most 300 data bytes, and an exception for more |
| Mup1.ChecksumOf | support/libeasy/handler/mup1.rb:301-307 | the check bytes of the chosen mode |
| Mup1.HexSpells | support/libeasy/handler/mup1.rb:385 | the four check bytes of internet mode are lower-case hexadecimal digits that spell the checksum, the heaviest first |
| Mup1.CrcSpells | support/libeasy/handler/mup1.rb:301-307 | the check bytes of CRC mode spell the CRC of exactly the bytes of the frame |
| Mup1.EscapeIs | support/libeasy/handler/mup1.rb:313-327 | what each byte becomes on the line: the five control bytes two bytes each, every other one itself |
| Mup1.FrameIs | support/libeasy/handler/mup1.rb:296-337 | the layout of a frame: start, type, escaped data, one end byte or two, and the check bytes of the frame without escapes |
| Mup1.PingFrame | support/libeasy/handler/mup1.rb:290-340 | the empty ping goes out as ">P<<8573" |
| Mup1.Receiver.RxSm | support/libeasy/handler/mup1.rb:161-279 | one byte moves the fields by the step function and delivers a frame iff the last check byte matches |
| Mup1.Receiver.Receive | support/libeasy/handler/mup1.rb:146-148 | a chunk is received byte by byte |
| Mup1.ChunksDoNotMatter | support/libeasy/handler/mup1.rb:134-151 | fields and delivered frames do not depend on how the bytes are cut into chunks |
| Mup1.FrameWithCheck | support/libeasy/handler/mup1.rb:161-279 | a frame of at most 1024 data bytes with any check bytes is delivered iff they are the right ones, and leaves the receiver idle |
| Mup1.TransmittedIsDelivered | support/libeasy/handler/mup1.rb:161-340 | what is encoded is delivered once and unchanged, in both modes, from the idle state and from a frame being read |
| Mup1.HistoryHolds | support/libeasy/handler/mup1.rb:161-279 | at every moment the fields say what the bytes since the last opening SOF were |
| Mup1.DeliveredWasEncoded | support/libeasy/handler/mup1.rb:161-279 | whenever a frame is delivered, the bytes since the last opening SOF are exactly its encoding, and it has at most 1024 bytes |
| Mup1.StreamIsDelivered | support/libeasy/handler/mup1.rb:134-279 | of frames with SOF-free noise between them exactly the frames are delivered, in order |
| Mup1.BurstIsRejected | support/libeasy/handler/mup1.rb:242-260 | in CRC mode a frame changed within four adjacent payload bytes is not delivered |
| KeyOrder.OrderKeys | support/yang-enc/yang-utils.rb:221-231 | fails iff a key has no child; else key leaves end in key order (distinct keys, one child each), only positions held by keys change, and no child is lost |
| KeyOrder.Exchange | support/yang-enc/yang-utils.rb:226-228 | two keys are exchanged iff the first stands before the second |
| KeyOrder.RoundStep | support/yang-enc/yang-utils.rb:224-229 | one inner step keeps what the exchange sort knows: a sorted prefix, the largest at its end, none before b above the one at a |
| KeyOrder.RoundEnd | support/yang-enc/yang-utils.rb:224-230 | after a whole inner loop one more position is sorted |
| KeyOrder.SwapPositions | support/yang-enc/yang-utils.rb:228 | exchanging two key children exchanges their two positions and no other |
| KeyOrder.SortedIsOrder | support/yang-enc/yang-utils.rb:221-231 | ascending positions mean key order |
| Bits.Encode | support/yang-enc/yang-enc.rb:286-320 | the encoding holds exactly the given positions and is canonical: no zero byte, gaps of at least 1, no two gaps or byte strings adjacent, a lone string unwrapped |
| Bits.Decode | support/yang-enc/yang-enc.rb:889-907 | the positions held, each once and in order; an exception for a number without a list |
| Bits.AddByte | support/yang-enc/yang-enc.rb:901-903 | the set bits of one byte follow the positions found before |
| Bits.SetInLastByte | support/yang-enc/yang-enc.rb:297-302 | a position below the end sets one bit of the last byte and nothing else |
| Bits.AppendByte | support/yang-enc/yang-enc.rb:306-309 | a position in the next byte appends that byte |
| Bits.AppendGap | support/yang-enc/yang-enc.rb:310-315 | a position further on closes the byte string, writes the gap, and starts a new string |
| Bits.RoundTrip | support/yang-enc/yang-enc.rb:286-320 | decoding the encoding lists exactly the given positions, sorted, for lists with repetitions too |
| Bits.AscendingIsUnique | support/yang-enc/yang-enc.rb:889-907 | a strictly ascending list is determined by its set |
| Bits.EncodingIsUnique | support/yang-enc/yang-enc.rb:286-320 | two canonical encodings are equal iff they hold the same positions |
| Bits.HasMeans | support/yang-enc/yang-enc.rb:302 | bit k of a byte is the one that 1 << k sets, counted from the least significant |
| Bits.SampleBits | support/yang-enc/yang-enc.rb:286-320 | the only canonical encoding of the bits 1, 2 and 24 is the byte 06, a gap of two, and the byte 01 |
| YangTree.EncHashIs | support/yang-enc/yang-enc.rb:176-190 | for members with distinct names and SIDs, entry i is the SID delta of member i's child with its encoded value |
| YangTree.DecHashIs | support/yang-enc/yang-enc.rb:676-692 | such entries decode to the members, in order |
| YangTree.RowsTrip | support/yang-enc/yang-enc.rb:193-210 | list entries are encoded one by one |
| YangTree.RowsBack | support/yang-enc/yang-enc.rb:694-712 | list entries decode one by one to the same list |
| YangTree.ParentIs | support/yang-enc/yang-enc.rb:766-786 | the first SID finds the input or output it belongs to, when the two share none |
| YangTree.FirstEntry | support/yang-enc/yang-enc.rb:766-768 | the first entry carries the SID of the first member's child, relative to the rpc |
| YangTree.CallSurvives | support/yang-enc/yang-enc.rb:255-269 | data of an rpc or action with a non-empty body survives, with SIDs relative to the rpc |
| YangTree.RoundTrip | support/yang-enc/yang-enc.rb:714-799 | decoding the encoding of schema-valid data is the same data, for any leaf codec with an inverse, through lists, containers, leaf-lists, rpcs and the nested datastore |
| YangTree.Encodes | support/yang-enc/yang-enc.rb:165-275 | what schema-valid data is on the wire, at every level: one entry for each member, in order, keyed by the distance of its declared SID from that of the node above, or of the rpc, or from 0 |
| YangTree.CallKeys | support/yang-enc/yang-enc.rb:255-269 | below an rpc or an action there is one entry for each member of the body, keyed by the distance of its declared SID from the SID of the rpc |
| YangTree.EncHashIff | support/yang-enc/yang-enc.rb:176-190 | encoding an object raises unless each member encodes, or is unknown and errors are passed over |
| YangTree.EncSkips | support/yang-enc/yang-enc.rb:176-190 | members passed over leave no trace: the encoding is that of the known members |
| YangTree.DecHashIff | support/yang-enc/yang-enc.rb:676-692 | decoding a map raises unless each entry decodes, or its key is unknown and errors are passed over |
| YangTree.DecSkips | support/yang-enc/yang-enc.rb:676-692 | entries passed over leave no trace |
| YangTree.EmptyCallIsNull | support/yang-enc/yang-enc.rb:255-269 | a call with an empty body is null on the wire, and null when it is read: the body does not come back |
| YangCodec.Codec.Json2CborHash | support/yang-enc/yang-enc.rb:176-191 | the loop over the members computes the pure encoding and keeps every SID |
| YangCodec.Codec.Json2CborArray | support/yang-enc/yang-enc.rb:193-210 | for entries that are objects the loop computes the pure encoding and keeps every SID |
| YangCodec.Codec.Json2CborCall | support/yang-enc/yang-enc.rb:255-269 | the rpc branch replaces the child's SID, encodes below it, and puts it back on a normal return |
| YangCodec.Codec.Json2Cbor | support/yang-enc/yang-enc.rb:212-273 | the value of the pure encoding, and after a normal return every SID as before but those of modules, which are 0 |
| YangCodec.Codec.Cbor2JsonHash | support/yang-enc/yang-enc.rb:676-692 | the loop over the entries computes the pure decoding and keeps every SID |
| YangCodec.Codec.Cbor2JsonArray | support/yang-enc/yang-enc.rb:694-712 | for entries that are maps the loop computes the pure decoding and keeps every SID |
| YangCodec.Codec.Cbor2JsonCall | support/yang-enc/yang-enc.rb:757-794 | the rpc branch finds its input or output, replaces its SID, decodes below it, and puts it back on a normal return |
| YangCodec.Codec.Cbor2Json | support/yang-enc/yang-enc.rb:714-799 | the value of the pure decoding, and after a normal return every SID as before but those of modules, which are 0 |
| YangCodec.PutBack | support/yang-enc/yang-enc.rb:261-265 | replacing a SID, working with every SID kept, and putting it back restores the table |
| IidText.SplitOutsideBrackets | support/yang-enc/yang-enc.rb:435-455 | the character loop splits at the slashes outside brackets and drops empty pieces |
| IidText.SplitPrinted | support/yang-enc/yang-enc.rb:435-455 | splitting printed text gives its elements back, with slashes in key values |
| IidText.ElementSplitPrinted | support/yang-enc/yang-enc.rb:394-414 | taking a printed element apart gives its name and keys back when the key pattern matches the key names; in any case as many keys as it had, all with names that the pattern matches, or an exception |
| IidText.PrintInjective | support/yang-enc/yang-enc.rb:986-1005 | different lists of elements are printed differently |
| IidText.KeyReadIff | support/yang-enc/yang-enc.rb:401 | a printed key is read back iff its name has word characters and hyphens only |
| IidText.NameIsCut | support/yang-enc/yang-enc.rb:401 | a key name with a dot, or any other character that the pattern does not match, is read from behind its last one |
| IidText.SamplePrinted | support/yang-enc/yang-enc.rb:986-1005 | how the text of two elements looks, the second with two keys |
| Iid.FindNodeFromSid | support/yang-enc/yang-enc.rb:646-655 | pushes and pops leave exactly the root path of the node found on the list, or the list as it was |
| Iid.LocateIsExact | support/yang-enc/yang-enc.rb:646-655 | with distinct SIDs the search answers with p iff p is the root path of a node with that SID |
| Iid.JsonValidateIid | support/yang-enc/yang-enc.rb:469-498 | the walk down the schema resolves every element or fails |
| Iid.Iid2Cbor | support/yang-enc/yang-enc.rb:459-467 | the SID of the node reached, followed by the encoded keys if there are any |
| Iid.Iid2Json | support/yang-enc/yang-enc.rb:986-1005 | the text of the path found, or an exception without a SID |
| Iid.PrintKeys | support/yang-enc/yang-enc.rb:992-999 | each key child takes the next key value, and prints it unless it is null or false |
| Iid.LeavesAre | support/yang-enc/yang-enc.rb:993-994 | in a list whose keys were ordered, the key children are the names of the key statement in order |
| Iid.ReadIff | support/yang-enc/yang-enc.rb:986-1005 | the keys printed are the keys given iff the given ones come first along the path and none is encoded as null or false |
| Iid.ElementsRaise | support/yang-enc/yang-enc.rb:469-498 | a key name that the pattern does not match makes the walk raise, when elements have all their keys |
| Iid.RoundTripShows | support/yang-enc/yang-enc.rb:986-1005 | when the given keys come first along the path, text to CBOR and back is the same path with the keys that are neither null nor false, in schema order |
| Iid.RoundTrip | support/yang-enc/yang-enc.rb:986-1005 | it is the same path with all its keys in schema order iff the key pattern matches their names, the given keys come first along the path, and none is encoded as null or false; with another name the encoder raises |
| CoapFrame.Coap.Parse | support/libeasy/frame/coap.rb:96-206 | the fields of the parsed message, a parse error, or an exception, as the pure parser says |
| CoapFrame.Coap.Store | support/libeasy/frame/coap.rb:179-195 | an option sets or extends the attribute of its number and no other; unknown numbers are skipped |
| CoapFrame.Coap.Print | support/libeasy/frame/coap.rb:398-451 | header, options in order and payload, or an exception |
| CoapFrame.UintTrips | support/libeasy/frame/coap.rb:333-364 | numbers below 2^32 come back, and take at most four bytes |
| CoapFrame.BlockTrips | support/libeasy/frame/coap.rb:324-331 | block numbers below 2^28 with sizes from 16 to 1024 come back |
| CoapFrame.OptTrips | support/libeasy/frame/coap.rb:311-322 | a printed option never starts with the payload marker; it is read back iff its value has at most 268 bytes, and makes the parser raise above |
| CoapFrame.OptsAscend | support/libeasy/frame/coap.rb:406-443 | option numbers never decrease, so that every delta has a nibble form |
| CoapFrame.OptsApply | support/libeasy/frame/coap.rb:406-443 | applying a message's options to nothing gives its fields, empty segments left out |
| CoapFrame.OptsTrip | support/libeasy/frame/coap.rb:123-205 | parsing printed options applies them all, up to the first one that is too long |
| CoapFrame.RoundTrip | support/libeasy/frame/coap.rb:398-451 | without a token, parsing what was printed gives every field back iff no segment exceeds 268 bytes; above, the parser raises |
| CoapFrame.ParsedIsPrinted | support/libeasy/frame/coap.rb:123-205 | bytes that parse are the printed form of the options read from them, so that no option has two forms |
| CoapFrame.PrintedIsShortest | support/libeasy/frame/coap.rb:398-451 | the printed options and payload are the shortest bytes that parse to their fields, for any bytes |
| CoapFrame.RoundTripIff | support/libeasy/frame/coap.rb:398-451 | with tokens of up to 15 bytes too: every field comes back iff there is no token and no segment exceeds 268 bytes |
| CoapFrame.TokenEatsOptions | support/libeasy/frame/coap.rb:404 | with a token only the length nibble is written: the parser takes the first option bytes for the token, or fails for want of them |
| CoapFrame.PrintedValues | support/libeasy/frame/coap.rb:406-443 | for every message and every option number: paths go out under 11, the content format under 12, queries under 15, accept under 17, block2 under 23, block1 under 27, and nothing under any other |
| CoapFrame.ReadFields | support/libeasy/frame/coap.rb:179-195 | and each attribute of a parsed message is read from exactly the values under its number: all of them for paths and queries, the last one for the rest |
| CoapFrame.HeaderIs | support/libeasy/frame/coap.rb:398-404 | the four header bytes: version 1, type and token length, class and detail of the code, message ID |
| CoapFrame.OptIs | support/libeasy/frame/coap.rb:295-322 | an option is a byte with the delta and the length, the extension of each as RFC 7252, section 3.1 has it, and the value |
| CoapFrame.UintIs | support/libeasy/frame/coap.rb:353-364 | a number is at most four bytes, the heaviest first, without leading zeros |
| CoapFrame.BlockLayout | support/libeasy/frame/coap.rb:367-396 | a block goes out as num * 16 + more * 8 + e for the size 2^(e + 4) |
| CoapFrame.BlockRead | support/libeasy/frame/coap.rb:324-331 | and is read so |
| CoapFrame.MessageIs | support/libeasy/frame/coap.rb:398-451 | a message is header, options, and behind FF the payload if there is one |
| CoapFrame.SampleOptions | support/libeasy/frame/coap.rb:406-427 | the path c with the query d=a goes out as B1 63 43 64 3D 61 |
| Dtls.DoneMeans | support/libeasy/handler/dtls.rb:536-557 | a completed handshake means: keys derived after the latest ClientHello, then the client's Finished sent over the transcript, then ChangeCipherSpec received, then a matching server Finished |
| Dtls.StaleKeys | support/libeasy/handler/dtls.rb:495-500 | as long as no keys have been derived since some ClientHello, the latest handshake stands at its beginning, whatever was received |
| Dtls.Record.SecurityParametersClear | support/libeasy/handler/dtls.rb:1143-1150 | not secure, one new null object for both directions, nothing pending |
| Dtls.Record.PendingSecurityParametersSet | support/libeasy/handler/dtls.rb:1151-1161 | one new object pending for both directions, or an exception if one is pending already |
| Dtls.Record.PendingWriteActivate | support/libeasy/handler/dtls.rb:1162-1168 | the pending write parameters become current, or an exception |
| Dtls.Record.PendingReadActivate | support/libeasy/handler/dtls.rb:1169-1175 | the pending read parameters become current, or an exception |
| Dtls.Handshake.HsCheck | support/libeasy/handler/dtls.rb:257-263 | a failed check ends in an alert record, the state FAILED unless sending the alert raises, and an exception |
| Dtls.Handshake.HsSend | support/libeasy/handler/dtls.rb:264-276 | the message enters the running hash and the kept data alike |
| Dtls.Handshake.SendClientHello | support/libeasy/handler/dtls.rb:277-338 | a ClientHello with that cookie goes out and starts the transcript anew; the next state is the one that waits for its answer |
| Dtls.Handshake.ProcessHelloVerify | support/libeasy/handler/dtls.rb:340-347 | a HelloVerifyRequest in its turn that the check accepts is taken: its cookie is kept, the second ClientHello is next, and nothing else changes; out of turn or refused, an alert goes out and the handshake fails |
| Dtls.Handshake.ProcessServerHello | support/libeasy/handler/dtls.rb:349-400 | taken in either of its two turns if the checks accept it: the server random and the extended-master choice are those of the message, and nothing else changes; out of turn or refused, an alert goes out and the handshake fails |
| Dtls.Handshake.ProcessCertificate | support/libeasy/handler/dtls.rb:402-415 | taken iff in its turn and accepted by the checks: the public key of the message is kept, and nothing else changes; out of turn or refused, an alert goes out and the handshake fails |
| Dtls.Handshake.ProcessKeyExchange | support/libeasy/handler/dtls.rb:417-447 | taken in its turn if its signature holds under the kept key and random: the ephemeral key of the message is kept, and nothing else changes; out of turn or refused, an alert goes out and the handshake fails |
| Dtls.Handshake.ProcessCertRequest | support/libeasy/handler/dtls.rb:449-465 | taken iff in its turn and with the expected fields, and nothing but the state changes; out of turn or refused, an alert goes out and the handshake fails |
| Dtls.Handshake.ProcessHelloDone | support/libeasy/handler/dtls.rb:466-471 | taken iff in its turn and empty; out of turn or refused, an alert goes out and the handshake fails |
| Dtls.Handshake.ProcessFinished | support/libeasy/handler/dtls.rb:544-557 | in its turn: secure and idle iff the body is the PRF over the transcript so far; else alert, cleared parameters and FAILED |
| Dtls.Handshake.Process | support/libeasy/handler/dtls.rb:628-648 | the message types 2, 3, 11, 12, 13, 14 and 20 are processed, each taken in its turn or refused with an alert; every other type raises |
| Dtls.Handshake.Rx | support/libeasy/handler/dtls.rb:610-650 | a message that is whole, has the next number and is taken in its turn joins the transcript; any other raises, and one that is out of turn or refused also sends an alert and fails the handshake |
| Dtls.Handshake.RxChangeCipher | support/libeasy/handler/dtls.rb:96-114 | taken iff in its turn and the single byte 1; then reading uses the pending object from its first number on, so that both directions use the negotiated one, and the Finished is awaited |
| Dtls.Handshake.RxRecord | support/libeasy/handler/dtls.rb:1204-1226 | a record of the expected version is handled iff it has the current epoch, the next number and a decrypted content, and does what its content asks for; a closing alert clears the parameters and raises; application data is delivered, as it is, iff it passes these and a handler is there, whether or not the handshake is over, and was then protected by the agreed parameters iff the record is of epoch 1 |
| Dtls.Handshake.ProtectedIff | support/libeasy/handler/dtls.rb:1204-1226 | reading is protected exactly in epoch 1, which is from the server's ChangeCipherSpec on and while is_secure holds; otherwise the null cipher of epoch 0 is used |
| Dtls.Handshake.SendClientCertificate | support/libeasy/handler/dtls.rb:472-483 | the certificate joins the transcript and goes out |
| Dtls.Handshake.SendClientKeyExchange | support/libeasy/handler/dtls.rb:484-494 | fails in a way that do_handshake does not catch iff it is called in its turn with the ephemeral key gone |
| Dtls.Handshake.CalcMasterSecret | support/libeasy/handler/dtls.rb:495-513 | the master secret is the PRF over the shared secret, with the transcript or the two randoms as the server chose; both ephemeral keys are dropped |
| Dtls.Handshake.CalcSecurityParams | support/libeasy/handler/dtls.rb:514-522 | one object of epoch 1 is pending for both directions, with the key block of that master secret |
| Dtls.Handshake.SendClientCertVerify | support/libeasy/handler/dtls.rb:523-533 | the signature is over exactly the transcript so far |
| Dtls.Handshake.SendClientChangeCipher | support/libeasy/handler/dtls.rb:84-95 | the message takes a number of the old write parameters and none of the pending ones, which are current afterwards; after an exception the old ones still are |
| Dtls.Handshake.SendClientFinished | support/libeasy/handler/dtls.rb:536-542 | the Finished value over the transcript so far |
| Dtls.Handshake.PollUntil | support/libeasy/handler/dtls.rb:559-566 | polls until the goal is reached, but at most twenty times, keeps the invariant, and takes the client where the records of these polls take it |
| Dtls.Handshake.DoHandshake | support/libeasy/handler/dtls.rb:568-608 | every RuntimeError inside ends in FAILED with cleared parameters; a handshake that becomes secure began with the ephemeral key, and the uncaught exception for its absence comes exactly in the state of the key exchange; a ready client that a server answers, with or without a HelloVerifyRequest, becomes secure, over the master secret of the exchange and after its events |
| Dtls.Handshake.Send | support/libeasy/handler/dtls.rb:41-50 | application data goes out only on a secure connection; when a server answers, the handshake comes first and the data right behind it |
| Dtls.Handshake.SecureMeans | support/libeasy/handler/dtls.rb:1177-1182 | secure means a completed handshake, one object of epoch 1 with the negotiated key block both ways, and nothing pending |
| Dtls.AnsweredIsSecure | support/libeasy/handler/dtls.rb:568-608 | for every ready client and every server whose records and messages have the next numbers, whose messages the checks accept and whose Finished is right: the handshake ends secure, over the master secret that follows from the messages and after exactly the events of the exchange, with or without a HelloVerifyRequest, wherever the numbers stand and however the flights are cut up into at most twenty polls each |
| Dtls.PollsBring | support/libeasy/handler/dtls.rb:559-566 | polls go on until a flight is in, however it is cut up, and stop with it |
| Dtls.VerifyStage | support/libeasy/handler/dtls.rb:340-347 | the HelloVerifyRequest alone ends the first wait |
| Dtls.HelloStage | support/libeasy/handler/dtls.rb:349-471 | from either wait the five messages from ServerHello to ServerHelloDone lead to the client's flight, with what they say kept, and no earlier message ends the wait |
| Dtls.FlightStage | support/libeasy/handler/dtls.rb:472-542 | the client's flight: its master secret, its Finished and its transcript are those that follow from the messages of the exchange |
| Dtls.FinishStage | support/libeasy/handler/dtls.rb:544-557 | ChangeCipherSpec and a right Finished under the new parameters make the connection secure |
| Dtls.SomeLineAnswers | support/libeasy/handler/dtls.rb:568-608 | every such server has a line of polls that it answers on |
| Dtls.RunAll | support/libeasy/handler/dtls.rb:41-50 | on every run the hash input is the kept data and the transcript, no application data precedes a completed handshake, a secure connection has had a whole one, and keys are derived at most once |
| Identity.IsDerivedFromOrSelf | support/pyang/pyang/types.py:287-298 | terminates on every base graph; yes only if b is reachable, and after no the newly visited identities are closed under bases and free of b |
| Identity.IsDerivedFrom | support/pyang/pyang/types.py:280-285 | yes iff a and b differ and the bases lead from a to b; a failure only if a base on the way was not found |
| Identity.Checker.VTypeIdentity | support/pyang/pyang/statements.py:1363-1387 | terminates; an identity in progress is reported, a validated one left alone, and any other one validated with everything below it |
| Identity.Checker.CycleOnStack | support/pyang/pyang/statements.py:1368-1371 | meeting an identity in progress closes a cycle |
| Identity.Checker.FinishedIsAcyclic | support/pyang/pyang/statements.py:1363-1387 | without a report there is no cycle |
| Identity.Checker.ValidateAll | support/pyang/pyang/statements.py:1363-1387 | over all identities of a module, in any order: an error is reported iff there is a cycle |
| Identity.Builder.Link | support/yang-enc/yang-utils.rb:395-396 | base and derived stay mutually inverse, counted with repetitions |
| Identity.Builder.InterpretIdentity | support/yang-enc/yang-utils.rb:386-401 | on an acyclic graph it terminates, makes the identity once, with all its bases, and keeps base and derived inverse |
| Identity.Builder.InterpretAll | support/yang-enc/yang-utils.rb:386-401 | all identities are made, and base is the base graph |
| Identity.DerivedFromIsClosure | support/yang-enc/yang-utils.rb:830-832 | x is in derived_from of y iff x is registered, differs from y, and its bases lead to y |
| Identity.BuiltClimbs | support/yang-enc/yang-utils.rb:386-401 | what was built over ranked bases climbs in rank, so that the recursion of derived_from ends |
| Identity.Agreement | support/pyang/pyang/types.py:280-298 | over bases without a cycle, once all identities are interpreted, is_derived_from(a, b) says whether derived_from of b, as built, lists a |

## Left out

- Digraph.Digraph: FP is taken to return fresh lists, and nodes of one component share one list object afterwards.
- LrLookaheads.ComputeFollowSets: the read sets of transitions that read each other in a cycle are one list object in the source, which this closure then extends for all of them; the model copies it. That can only add lookaheads, which LrLookaheads.LookaheadsSuffice allows.
- LrLookaheads.LrParseTable: the LALR method; the SLR method, which takes the FOLLOW set of a name for its lookaheads, is LrTable.BuildTables with those lists.
- LrItems.Lr0Goto: states are compared by value; the caches that make equal goto sets one object are not modelled.
- LrEngine.Parser.Parse: takes a bound on the number of rounds, because on tables with conflicts a grammar with empty cycles can make the source's loop run forever; LrDecides.Decides is about tables without. Error recovery, the error token and semantic actions that raise are not part of it.
- The tracking and debugging copies of the parser, pickled tables and compute_follow.
- Python's recursion limit, for the recursive searches of all components.
- Blockwise.TransferExact: message IDs are drawn without repetition, where the source draws them at random from 16 bits; retransmission timing is a time value given to each step, and the URI parts of a frame are left out because no step changes them.
- Splitting an if-feature expression into tokens.
- The serial port, the raw console buffer and the receive timeout, which only puts the receiver back to its initial state; the announce flag, which only guards log messages.
- KeyOrder.OrderKeys: key order is stated for distinct keys with one child each; with repeated names the source finds the first child only.
- The names of bits: the bit set model starts from positions, as the type's table gives them.
- Decimal64 and union values, whose member choice can differ between encoding and decoding.
- YangCodec.Codec.Json2CborArray: a list entry that is not an object counts as an exception, where Ruby would destructure an array of pairs.
- YangCodec.Codec.Json2Cbor: an object given for a leaf-list, and list entries that are not objects, count as exceptions, where Ruby would destructure some of them.
- YangCodec.Codec.Cbor2JsonArray: a list entry that is not a map counts as an exception, where Ruby would destructure an array of pairs.
- YangCodec.Codec.Cbor2Json: a map given for a leaf-list, and list entries that are not maps, count as exceptions, where Ruby would destructure some of them.
- YangTree.RoundTrip: anydata other than the factory configuration has no value in the source, and so none here.
- Iid.RoundTrip: a list with only some of its keys given is covered when the key pattern matches the given names; a name that is cut there can become the name of another key. The decoder of key values is total, where the source's can raise on a value of another type.
- CoapFrame.Coap.Parse: input shorter than the four header bytes is left to the bit-struct library, which is not part of this model.
- CoapFrame.RoundTrip: segments are byte strings; for a string of multi-byte characters the source would count characters.
- Mup1.Tx: a frame type is one byte; an integer type of 128 or more is appended by the source as a two-byte character, and its size limit counts characters.
- OpenSSL, HMAC, signatures and AES-CCM: functions of which nothing is known; a received record's decrypted content is given with it.
- Dtls.AnsweredIsSecure: the server's flights hold its messages only; what warnings and other records between them do is in Dtls.Handshake.RxRecord.
- Dtls.RunAll: an exception outside do_handshake ends the run, as it ends the program.
- The parsers of the server's handshake messages: each is a verdict that accepts with a value, fails a check, or raises.
- Identity.Builder.InterpretIdentity: on a cyclic graph the source does not terminate, so that the model asks for a rank.
- Uses, augment, deviation and leafref processing, JSON schema generation, revision comparison, output plugins, sockets and option parsing.
