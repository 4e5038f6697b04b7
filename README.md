# NoFileutilsRmrf, modelled in Dafny

A model of Homebrew's RuboCop cop `Homebrew/NoFileutilsRmrf`. The cop looks at
every method call (a `send` node) in a Ruby file and flags the "force remove"
calls `FileUtils.rm_rf`, `FileUtils.rm_f`, `FileUtils.rmtree` and
`Pathname.rmtree`. In each case the constant may be written bare or with a
leading `::`. Its autocorrection replaces the whole call by
`FileUtils.rm_r(<first argument>)` for `rm_rf` and `rmtree`, and by
`FileUtils.rm(<first argument>)` for `rm_f`. The first argument's source text is
copied verbatim and any further arguments are dropped.

Files:

- `ast.dfy` (module `Ast`): the slice of RuboCop's syntax tree the cop reads.
  It has `send` nodes, `const` nodes (scope absent, `cbase` for `::`, or any
  other node), `cbase` nodes and an `Other` kind for every other node. Each node
  has its character span in the buffer, and `Source` is a node's text as it
  stands in the buffer (`node.source`).
- `corrector.dfy` (module `Corrector`): `Replace`, the pure span replacement
  that stands for `corrector.replace`.
- `no_fileutils_rmrf.dfy` (module `NoFileutilsRmrf`): the two node patterns
  `fileutils_rm_r_f?` and `pathname_rmtree?`, `neither_rm_rf_nor_rmtree?`, the
  choice of safe method, the replacement text, and `OnSend`, the handler's
  outcome for one send node. It also holds the lemmas about which calls are
  flagged, what text is produced and that a corrected call is not flagged again.
- `call_syntax.dfy` (module `CallSyntax`): `Join` writes a call
  `Receiver.method(argument)` as text, and `SplitCall` reads one back. They
  are proved inverse in both directions, and are used to say what the
  replacement text consists of without repeating how it is built.
- `scenarios.dfy` (module `NoFileutilsRmrfScenarios`): the cop on concrete
  calls.

Two details of the code are easy to misread:

- `Pathname.rmtree(dir)` is corrected to `FileUtils.rm_r(dir)`. The safe method
  is `rm_r` for `rmtree` on either receiver; only `rm_f` becomes `rm`.
- A call without a receiver (`rm_rf(x)`) is never flagged. The `nil?` in the
  pattern constrains the scope of the receiver constant, not the receiver.

## Model

| member | source | states |
|---|---|---|
| NoFileutilsRmrf.FileutilsRmRF | Library/Homebrew/rubocops/no_fileutils_rmrf.rb:15-17 | the pattern `fileutils_rm_r_f?`: a send to the constant `FileUtils`, bare or with `::`, of `rm_rf`, `rm_f` or `rmtree`, with any arguments |
| NoFileutilsRmrf.PathnameRmtree | Library/Homebrew/rubocops/no_fileutils_rmrf.rb:19-21 | the pattern `pathname_rmtree?`: a send of `rmtree` to the constant `Pathname`, bare or with `::`, with any arguments |
| NoFileutilsRmrf.NeitherRmRfNorRmtree | Library/Homebrew/rubocops/no_fileutils_rmrf.rb:37-39 | holds exactly when neither pattern matches |
| NoFileutilsRmrf.FileUtilsMethodsFlagged | Library/Homebrew/rubocops/no_fileutils_rmrf.rb:15-17 | every one of `rm_rf`, `rm_f`, `rmtree` sent to `FileUtils` or `::FileUtils` is an offence, with any number of arguments, zero included |
| NoFileutilsRmrf.PathnameRmtreeFlagged | Library/Homebrew/rubocops/no_fileutils_rmrf.rb:19-21 | `rmtree` sent to `Pathname` or `::Pathname` is an offence, with any number of arguments, zero included |
| NoFileutilsRmrf.BareAndRootedAgree | Library/Homebrew/rubocops/no_fileutils_rmrf.rb:15-21 | `FileUtils` and `::FileUtils` (likewise `Pathname`) as receiver give the same verdict and the same correction, for every method and argument list |
| NoFileutilsRmrf.ReceiverlessNeverFlagged | Library/Homebrew/rubocops/no_fileutils_rmrf.rb:16 | a call without a receiver, such as `rm_rf(x)`, is never flagged |
| NoFileutilsRmrf.NamespacedNeverFlagged | Library/Homebrew/rubocops/no_fileutils_rmrf.rb:16 | a receiver constant with any scope other than `::`, such as `Foo::FileUtils`, is never flagged |
| NoFileutilsRmrf.NonConstantReceiverNeverFlagged | Library/Homebrew/rubocops/no_fileutils_rmrf.rb:16 | a receiver that is not a constant is never flagged |
| NoFileutilsRmrf.PathnameOnlyRmtree | Library/Homebrew/rubocops/no_fileutils_rmrf.rb:19-21 | a call on `Pathname` is flagged if and only if its method is `rmtree` |
| NoFileutilsRmrf.OtherMethodsNeverFlagged | Library/Homebrew/rubocops/no_fileutils_rmrf.rb:15-21 | a call whose method is not `rm_rf`, `rm_f` or `rmtree` (e.g. `cp_r`) is never flagged, whatever the receiver |
| NoFileutilsRmrf.ArgumentsUnconstrained | Library/Homebrew/rubocops/no_fileutils_rmrf.rb:15-21 | replacing a call's arguments by any others, zero included, does not change whether it is flagged |
| NoFileutilsRmrf.SafeMethod | Library/Homebrew/rubocops/no_fileutils_rmrf.rb:27-31 | the safe method is `rm_r` if and only if the original is `rm_rf` or `rmtree`, and `rm` otherwise |
| NoFileutilsRmrf.SafeMethodOfFlagged | Library/Homebrew/rubocops/no_fileutils_rmrf.rb:27-31 | on a flagged call the safe method is `rm` exactly for `rm_f` and `rm_r` exactly for `rm_rf` and `rmtree` |
| NoFileutilsRmrf.SafeMethodNotFlagged | Library/Homebrew/rubocops/no_fileutils_rmrf.rb:15-31 | the safe method is neither a flagged `FileUtils` method nor `rmtree` |
| NoFileutilsRmrf.Replacement | Library/Homebrew/rubocops/no_fileutils_rmrf.rb:33 | the replacement text reads back as receiver `FileUtils`, the safe method, and the first argument's source text unchanged |
| NoFileutilsRmrf.OnSend | Library/Homebrew/rubocops/no_fileutils_rmrf.rb:23-39 | there is an offence if and only if `neither_rm_rf_nor_rmtree?` is false; it carries a correction if and only if the call has a first argument; the correction's span is the whole call, and its text reads back as `FileUtils`, the safe method and the first argument's source |
| NoFileutilsRmrf.FurtherArgumentsDropped | Library/Homebrew/rubocops/no_fileutils_rmrf.rb:33 | adding arguments after the first changes neither the verdict nor the correction |
| NoFileutilsRmrf.CorrectedBuffer | Library/Homebrew/rubocops/no_fileutils_rmrf.rb:33 | applying the correction keeps the text before and after the call and puts `FileUtils.<safe>(<first argument>)` in its place |
| NoFileutilsRmrf.CorrectionIsFixedPoint | Library/Homebrew/rubocops/no_fileutils_rmrf.rb:15-33 | the call written by a correction has receiver `FileUtils` and is not flagged again, whatever its arguments and spans |
| Corrector.Replace | Library/Homebrew/rubocops/no_fileutils_rmrf.rb:33 | replacing a span keeps everything before and after it, puts the new text in its place, and the length changes by the difference |
| Corrector.ReplaceUndo | Library/Homebrew/rubocops/no_fileutils_rmrf.rb:33 | putting the old text back over the replaced span restores the original buffer |
| Corrector.ReplaceWithOwnText | Library/Homebrew/rubocops/no_fileutils_rmrf.rb:33 | replacing a span by its own text leaves the buffer unchanged |
| CallSyntax.SplitCall | Library/Homebrew/rubocops/no_fileutils_rmrf.rb:33 | what is read back has a receiver without `.` and a method without `(`, and its parts plus the three separators account for the whole text |
| CallSyntax.SplitCallJoins | Library/Homebrew/rubocops/no_fileutils_rmrf.rb:33 | whatever is read back from a text joins back into exactly that text |
| CallSyntax.SplitJoin | Library/Homebrew/rubocops/no_fileutils_rmrf.rb:33 | a call whose receiver has no `.` and whose method has no `(` reads back as itself, whatever its argument text |
| NoFileutilsRmrfScenarios.RmRfScenario | Library/Homebrew/rubocops/no_fileutils_rmrf.rb:23-35 | `FileUtils.rm_rf("tmp/build")` is flagged and corrected to `FileUtils.rm_r("tmp/build")` over its own span |
| NoFileutilsRmrfScenarios.RmRfCorrectedLine | Library/Homebrew/rubocops/no_fileutils_rmrf.rb:33 | applying that correction inside a line keeps the rest of the line |
| NoFileutilsRmrfScenarios.PathnameRmtreeScenario | Library/Homebrew/rubocops/no_fileutils_rmrf.rb:23-35 | `Pathname.rmtree(dir)` is corrected to `FileUtils.rm_r(dir)` |
| NoFileutilsRmrfScenarios.RootedRmFScenario | Library/Homebrew/rubocops/no_fileutils_rmrf.rb:23-35 | `::FileUtils.rm_f(path, verbose: true)` is corrected to `FileUtils.rm(path)` |
| NoFileutilsRmrfScenarios.CopyScenario | Library/Homebrew/rubocops/no_fileutils_rmrf.rb:23-24 | `FileUtils.cp_r(src, dst)` is not flagged |
| NoFileutilsRmrfScenarios.NoArgumentScenario | Library/Homebrew/rubocops/no_fileutils_rmrf.rb:23-35 | `FileUtils.rm_rf` with no arguments is flagged and has no correction |

## Left out

- The RuboCop framework: `Base`, `AutoCorrector`, the dispatch of `on_send`, `add_offense`, offence reporting and the `MSG` text. The model gives the handler's outcome as a value (`Verdict`) instead.
- The node-pattern language behind `def_node_matcher` and the Ruby parser. The two patterns are written by hand as predicates, and nodes are given with their spans already computed.
- Safe-navigation calls (`FileUtils&.rm_rf(x)`). They are `csend` nodes, which the `send` patterns and `on_send` never see, so the node model has no such kind.
- The corrector's batching of several corrections, its overlap detection and the writing of the corrected file. Only the single span replacement the cop asks for is modelled (`Replace`).
- NoFileutilsRmrf.OnSend: for a flagged call with no arguments the source raises a nil dereference inside the correction block (`node.arguments.first.source`). The model reports the offence with no correction (`Offense(None)`) and does not model the exception.
- NoFileutilsRmrf.CorrectionIsFixedPoint: reading the corrected text back is modelled by `SplitCall` on the `Receiver.method(argument)` shape, not by Ruby's parser. The fixed point is stated for the call node that text stands for.
- Offsets are character positions in a `string`; Ruby's encodings and byte offsets are not modelled.
