# Chat application: a verification model

This project models the parts of the repository whose correctness is least
obvious, and proves what they promise. `dafny verify dfyconfig.toml` checks it.

## What is modelled

**The usage-pattern engine** (`cmake/fmt/support/docopt.py`). `DocoptPattern`
holds the trees; a leaf's class and names are its `Id`, which never changes.
`DocoptTransform` is the worklist that expands a pattern into alternatives.
`DocoptMatch` is the greedy matcher as a function of the command line, with the
usage language (`Lang`) it is sound for; `DocoptRepeats` ties the two readings of
"repeated" together. `DocoptFix` and `DocoptRun` are the same engine as it runs:
leaves are objects with a mutable value, nodes have a mutable list of children,
the matcher rewrites values even on branches that fail, and an addition of values
may raise. A ghost constant of a leaf remembers the value it was created with.
`DocoptTally` is what collected values add up to, and when adding fails. `Docopt`
joins them: `pattern.fix().match(argv)`; `DocoptClash` has usages on which adding
raises. `DocoptComplete` and
`DocoptWilling` say on which patterns greedy matching finds every use of the program,
from what a use needs (`DocoptNeeds`); `DocoptUsages` has the usages just outside, and
`DocoptPlaces` is exact for usages that list arguments and options.
`DocoptParser` is the recursive-descent parser over token lists, as a grammar and as
the class that pops tokens; `DocoptPrinter` writes usages in every spelling the parser
knows and says what parsing makes of them, and what it refuses. `DocoptLeaves` is what
the leaves of its trees hold, `DocoptWords` how a default is split, `DocoptReply` the
dictionary of a match, and `DocoptProgram` goes from tokens to that answer.
`DocoptAssertion` is the matcher with its assertion on repetitions as an outcome, on
parsed patterns.

**The relay** (`src/server/server_config.cpp`, `src/client/client_config.cpp`).
`Framing` is the length prefix, the frame buffer and the read chain; `Connection`
is the client; `Relay` is the server with its registry; `RelayHistory` records
which frames were handled and proves what every client is sent over all runs. A
completion handler runs to its end before the next one starts, because one io
thread runs them all (`src/server/main.cpp:66-68`). A read completes when its
buffer is full or with an error; a write appends its whole buffer.

**The table compressor** (`cmake/fmt/support/printable.py`) together with the
lookup that reads its tables (`cmake/fmt/include/fmt/format-inl.h`).
`PrintableRanges` lists and groups code points, `PrintableCoding` is the two table
codings, `PrintableTables` is the generator, the lookup, and when they agree.

**The client session** (`src/client/main.cpp` and the screens) and the **handler
wrapper** of the networking library (`lib/asio/asio/any_completion_handler.hpp`).
`GpgKeys` is the key checks and the guards around GPGME, `Recipients` the recipient
menu, `Session` the flow between screens, `SessionFlow` where it leads;
`HandlerStorage` is the block with its hidden trailer, `HandlerOwnership` who owns
which handler object, and `HandlerHeap` shows that wrappers on the heap take the steps
of that model.

Where the code changes state step by step there is a class or a method with a
loop, proved against a specification function; the theorems are about that
function over whole runs.

## What turned out not to hold

- Greedy matching is not complete: `[<a>] <b>` does not match one positional
  (`DocoptMatch.GreedyIsIncomplete`). It is exact on a class that can be read off
  the pattern: on `Tame` patterns a command line is accepted if and only if some use
  of the program is that command line (`DocoptComplete.AcceptsIff`), and on `Willing`
  ones a match succeeds if and only if the command line has what some use needs
  (`DocoptWilling.MatchesIff`). Patterns of leaves that must be given are in both
  classes; parts that may be left out, repetitions and branches are allowed where
  what they take cannot be mistaken for what follows. `OptionalBefore`, `OptionBefore`,
  `RepeatedBefore` and `BranchesBefore` in `DocoptUsages` are inputs just outside. For
  usages that list arguments and options, each as it is or in brackets, the condition
  is exact: greedy is complete if and only if no argument that may be left out comes
  before one that must be given, and no option so before one of the same name, for
  success (`DocoptPlaces.CompleteIffOrdered`) as for acceptance with nothing left over
  (`ExactIffOrdered`). The usage of the repository's release
  script is tame (`DocoptUsages.ReleaseAccepts`).
- A pattern that the parser accepts can fail the matcher's assertion that a
  repetition has one child. When no bundle of several short options is directly
  followed by `...`, it never fails, whatever the command line
  (`DocoptAssertion.ParsedNeverFails`). The converse does not hold: `-ab...` fails on
  every command line (`RepeatedBundleFails`), `[<a>]... <b> -cd...` on none
  (`NeverReached`). After other parts a repetition of several children is reached on
  exactly those command lines on which the parts before it match
  (`DocoptAssertion.FailsIff`, `ReachedIff`).
- Adding collected values can raise a TypeError. On a straight usage, one whose parts
  take nothing when they fail unless the whole match fails, a run raises if and only if
  some use of an accumulating leaf adds something that is not a number to a number nor
  a list to a list, the first use of its name being the one added to
  (`Docopt.FixAndMatch`, `DocoptTally.TallyFailsIff`). Three usages raise: `-b <y> -a <x>
  -a <x>` with a common long name, of which one leaf is retyped and one is not
  (`DocoptClash.ClashingRun`); `-a <x> -a <x> -b -b`, of which both are, to a list and to
  a count (`MixedRun`); and `-b <y> -b <y>` when a flag of the same name is given
  (`FlagGivenRun`). On any usage nothing raises when the leaves of each name are of one
  kind, all plain, all counts or all lists, and the options given hold what that kind
  adds: texts for lists, booleans for counts.
- The generated tables are exact if and only if it is not the case that 0x20000 is
  escaped while one of its two successors is not
  (`PrintableTables.Generate`): the bit test `a & CUTOFF` takes a short range
  there for one of the first plane. The same holds if and only if every table
  entry fits a byte.
- Code point 0 is never listed when the database does not start with it
  (`PrintableRanges.GetCodepoints`, `PrintableTables.Build`).
- `allocate` computes its sizes in unsigned 64-bit arithmetic. The alignment step
  succeeds and block and trailer lie inside the allocation if and only if no size
  wraps (`HandlerStorage.AllocationFits`); when only the trailer makes the total wrap,
  the trailer is written beyond it (`HandlerStorage.Storage.Allocate`).
- The relay does not go on accepting for good: after one failed accept no further client
  ever joins, because only a successful one posts the next (`RelayHistory.AcceptsGoOn`).
- A failed send in the chat does not show the error screen: the chat keeps its own
  copy of the current screen (`src/client/client_chat_screen.cpp:168`). Over every run
  the chat, once shown, stays (`Session.ChatIsFinal`), and no error screen ever has the
  handler that a failed send stored (`Session.FailedSendUnseen`).

## Model

| member | source | states |
|---|---|---|
| DocoptTransform.Transform | cmake/fmt/support/docopt.py:72-96 | for every pattern the worklist stops, the result is one Either of Requireds of leaves, and as a bag of bags of leaves it is the recursive expansion |
| DocoptTransform.TurnKeepsBags | cmake/fmt/support/docopt.py:85-93 | replacing a group by what its first branch expands to keeps the bag of alternatives, though the child moves in front of the leaves before it |
| DocoptTransform.TurnLowersWeight | cmake/fmt/support/docopt.py:81-93 | every turn lowers a weight, although OneOrMore doubles its children and Either multiplies groups |
| DocoptTransform.ExpandTurn | cmake/fmt/support/docopt.py:82-93 | a turn at the front of the worklist keeps what groups and results stand for together |
| DocoptTransform.FinishTurn | cmake/fmt/support/docopt.py:94-95 | a group without branches moves to the results without changing what they stand for together |
| DocoptTransform.Replace | cmake/fmt/support/docopt.py:87-93 | the groups appended for one child are those the three kinds of branches call for |
| DocoptTransform.Spread | cmake/fmt/support/docopt.py:88-89 | one group for every child of an Either, each with all the other children |
| DocoptTransform.WrapKeepsBags | cmake/fmt/support/docopt.py:96 | wrapping finished groups as an Either of Requireds does not change the alternatives |
| DocoptMatch.SingleMatch | cmake/fmt/support/docopt.py:152-156 | whatever is found fits the leaf, a positional is only found when none precedes it, and for arguments and options nothing found means nothing fits |
| DocoptMatch.SingleMatchIff | cmake/fmt/support/docopt.py:152-204 | exactly which element a leaf takes: an argument the first positional, a command the first one too if it is its name, an option the first element of its name |
| DocoptMatch.Match | cmake/fmt/support/docopt.py:221-229 | what remains is shorter or unchanged, and on failure all of it remains and nothing counts as used |
| DocoptMatch.MatchSound | cmake/fmt/support/docopt.py:112-130 | whenever matching succeeds the used elements are a derivable use of the program; used and remaining elements partition the command line, used positionals are its first ones in order, and the rest keeps its order |
| DocoptMatch.Repeat | cmake/fmt/support/docopt.py:248-265 | the repetition stops after at most two more child calls than there are elements left |
| DocoptMatch.RepeatSound | cmake/fmt/support/docopt.py:248-265 | as many successful turns as counted, each derivable, and together they take each element once |
| DocoptMatch.BestIsFirstShortest | cmake/fmt/support/docopt.py:270-279 | of the successful branches the first that leaves the fewest elements is taken; none is taken only if none succeeds |
| DocoptMatch.GreedyIsIncomplete | cmake/fmt/support/docopt.py:234-238 | `[<a>] <b>` on one positional: derivable, and refused; `DocoptComplete.AcceptsIff` says where this cannot happen |
| DocoptComplete.AcceptsIff | cmake/fmt/support/docopt.py:574-575 | on tame patterns a command line is accepted with nothing left over if and only if some use of the program is that command line |
| DocoptComplete.Takes | cmake/fmt/support/docopt.py:221-279 | a tame pattern, followed by anything its place allows, takes from a command line as much as any use of it needs and leaves what follows |
| DocoptComplete.RepeatTakes | cmake/fmt/support/docopt.py:248-265 | the repetition takes what any number of turns needs, and stops before what follows |
| DocoptComplete.BestTakes | cmake/fmt/support/docopt.py:270-279 | the shortest branch leaves no more than the branch a use chose, and exactly what follows |
| DocoptComplete.SlackTakes | cmake/fmt/support/docopt.py:234-238 | of arguments that may all be left out greedy fills the first ones, whichever a use fills |
| DocoptComplete.TakesSeq | cmake/fmt/support/docopt.py:221-238 | parts in turn take what they need, one after the other |
| DocoptComplete.FirmIsTame | cmake/fmt/support/docopt.py:221-229 | every pattern of leaves that must be given is tame in any place |
| DocoptWilling.MatchesIff | cmake/fmt/support/docopt.py:112-130 | on willing patterns a match succeeds if and only if the command line has what some use needs: its positionals first, and its options as often |
| DocoptWilling.FirmIsWilling | cmake/fmt/support/docopt.py:221-229 | every pattern of leaves that must be given is willing |
| DocoptUsages.OptionalBefore | cmake/fmt/support/docopt.py:234-238 | just outside: `[<a>] <b>` refuses any single positional, which it derives |
| DocoptUsages.OptionBefore | cmake/fmt/support/docopt.py:234-238 | just outside: `[-a] -a` refuses a single -a |
| DocoptUsages.RepeatedBefore | cmake/fmt/support/docopt.py:248-265 | just outside: `<a>... <b>` refuses two positionals |
| DocoptUsages.BranchesBefore | cmake/fmt/support/docopt.py:270-279 | just outside: `(<a> | <a> <b>) <c>` refuses two positionals |
| DocoptPlaces.PlacesIff | cmake/fmt/support/docopt.py:221-238 | usages that list arguments and options, each as it is or in brackets: a match needs, of positionals and of each option name, an element for every place up to the last that must be filled, a use only for those that must be |
| DocoptPlaces.CompleteIffOrdered | cmake/fmt/support/docopt.py:221-238 | greedy is complete on such a usage if and only if no argument that may be left out comes before one that must be given, nor such an option before one of its name |
| DocoptPlaces.ExactIffOrdered | cmake/fmt/support/docopt.py:574-575 | under the same condition, and no other, it accepts exactly the command lines that are uses |
| DocoptPlaces.UsageMatches | cmake/fmt/support/docopt.py:221-238 | each place takes one element of its class while there are any, and what remains is the surplus |
| DocoptPlaces.UsageDemands | cmake/fmt/support/docopt.py:221-238 | every use takes at least one element for each place that must be filled and at most one for each place |
| DocoptUsages.ReleaseAccepts | cmake/fmt/support/release.py:5-6 | the release script's usage is tame, and accepts exactly no argument or one positional |
| DocoptRepeats.RepeatedIffReusable | cmake/fmt/support/docopt.py:57-60 | a leaf occurs twice in some alternative if and only if some use of the program gives it at least twice |
| DocoptRepeats.AlternativeDerivable | cmake/fmt/support/docopt.py:72-96 | giving every leaf of an alternative once is a use of the program |
| DocoptRepeats.LangBounded | cmake/fmt/support/docopt.py:72-96 | a leaf that occurs at most once in every alternative is used at most that often in any use |
| DocoptRepeats.MatchedAtMostOnce | cmake/fmt/support/docopt.py:57-69 | a leaf that no alternative repeats is taken at most once by the matcher, so it needs no accumulator |
| DocoptFix.Node.Snapshot | cmake/fmt/support/docopt.py:72-80 | reading the tree of nodes gives the tree, and leaves it as it was |
| DocoptFix.Unique | cmake/fmt/support/docopt.py:49 | one representative for each class of equal leaves |
| DocoptFix.IndexOf | cmake/fmt/support/docopt.py:51-52 | the search ends at the representative |
| DocoptFix.Node.FixIdentities | cmake/fmt/support/docopt.py:45-55 | in place, every leaf of the tree becomes its representative and the shape stays |
| DocoptFix.Share | cmake/fmt/support/docopt.py:40-41 | afterwards two leaves are equal if and only if they are one object |
| DocoptFix.Retype | cmake/fmt/support/docopt.py:61-68 | null becomes an empty list, a text its words, a list stays; commands and flags become zero |
| DocoptWords.Blanks | cmake/fmt/support/docopt.py:66 | which ASCII codes separate words |
| DocoptWords.SplitLaid | cmake/fmt/support/docopt.py:66 | splitting a text gives exactly the words it was laid out from, whatever blanks stand between them and at its ends |
| DocoptWords.SplitLayout | cmake/fmt/support/docopt.py:66 | every text is laid out from the words it splits into, none of them empty or with a blank in it |
| DocoptFix.RepeatedLeaves | cmake/fmt/support/docopt.py:60 | the leaves that an alternative holds at least twice |
| DocoptFix.CountIsMultiplicity | cmake/fmt/support/docopt.py:60 | counting by printed equality counts objects once leaves are shared |
| DocoptFix.RetypeAll | cmake/fmt/support/docopt.py:60-68 | a leaf that several alternatives repeat is retyped as if once |
| DocoptFix.FixRepeatingArguments | cmake/fmt/support/docopt.py:57-69 | exactly the leaves repeated in some alternative accumulate, all others keep their value |
| DocoptFix.Fix | cmake/fmt/support/docopt.py:40-43 | same shape, one object for each class of equal leaves, and a leaf accumulates exactly when some alternative repeats it |
| DocoptFix.RetypedIffReusable | cmake/fmt/support/docopt.py:57-69 | a leaf accumulates if and only if some use of the program can give it at least twice |
| DocoptFix.ExpandMap | cmake/fmt/support/docopt.py:72-96 | expansion does not look at leaves: renaming them before or after gives the same |
| DocoptRun.SingleMatchAt | cmake/fmt/support/docopt.py:152-156 | the loop over the command line finds what the specification finds |
| DocoptRun.Gather | cmake/fmt/support/docopt.py:118-130 | the addition to the first collected leaf of the same name raises exactly when the values do not add; else that leaf takes the increment in, or the found leaf is added with its first value; nothing else changes |
| DocoptRun.Take | cmake/fmt/support/docopt.py:118-130 | what was collected is kept, exactly the name is added, and a leaf that does not accumulate is added with the value it was given; it raises exactly when the values do not add, which they do where the leaves of that name accumulate alike and the value found is what they add |
| DocoptRun.LeafTaken | cmake/fmt/support/docopt.py:114-117 | the element found is the one use of the outcome, with its text or value, and removing it leaves the outcome's rest |
| DocoptRun.MatchLeaf | cmake/fmt/support/docopt.py:112-130 | success and remainder are those of the command line alone; what is collected grows by the one use, and with its value unless its name accumulates; for arguments, commands and options it raises exactly when an element is found whose increment does not add to what was collected |
| DocoptRun.Run | cmake/fmt/support/docopt.py:112-279 | for every pattern success and remainder depend on the command line only, never on what was collected; what was collected is kept, the names grow by exactly those used, leaves that do not accumulate are added in order with the values they were given, no positional's text and no pattern leaf changes; an addition raises only where the leaves of some name do not accumulate alike or an option holds what they do not add; on straight patterns it raises exactly when adding up what was taken fails, and the values collected, of accumulating leaves too, are the sums |
| DocoptRun.RunEvery | cmake/fmt/support/docopt.py:221-229 | all children in turn; after a failed child everything is handed back, however many values were rewritten |
| DocoptRun.RunAny | cmake/fmt/support/docopt.py:234-238 | each child takes what it can |
| DocoptRun.GrewTwice | cmake/fmt/support/docopt.py:221-229 | what two runs in a row collect is what their uses in a row tell |
| DocoptRun.RunTurns | cmake/fmt/support/docopt.py:248-262 | the loop makes the turns and child calls that the specification counts |
| DocoptRun.RunRepeat | cmake/fmt/support/docopt.py:248-265 | at least one turn must succeed, else all is handed back |
| DocoptRun.TurnTaken | cmake/fmt/support/docopt.py:256-262 | one turn moves the loop along its specification and stops when two turns left the same |
| DocoptRun.Collect | cmake/fmt/support/docopt.py:272-276 | every branch is tried on the same command line, whatever the branches before it rewrote |
| DocoptRun.Shortest | cmake/fmt/support/docopt.py:278 | min() gives the first success that leaves the fewest elements |
| DocoptRun.BestOfSuccesses | cmake/fmt/support/docopt.py:270-279 | the first shortest of the recorded successes is the outcome of the specification |
| DocoptTally.TallyFailsIff | cmake/fmt/support/docopt.py:118-130 | for any uses under any names, adding them up fails if and only if some use of an accumulating leaf adds something to the first use of its name that is not a number to a number nor a list to a list |
| DocoptTally.AddSorted | cmake/fmt/support/docopt.py:118-130 | adding never changes the sort of what was collected first under a name, so one more use fails exactly when it clashes with the first |
| DocoptTally.CountsUses | cmake/fmt/support/docopt.py:121-128 | a name whose leaves all count ends with the number of its uses |
| DocoptTally.CountsOnto | cmake/fmt/support/docopt.py:121-128 | counting uses add their number to a number that was collected first, a flag being one or zero |
| DocoptTally.CountIsSize | cmake/fmt/support/docopt.py:121-128 | the number of uses of a name is how many positions hold one |
| DocoptTally.ListsUses | cmake/fmt/support/docopt.py:121-129 | a name whose leaves all list ends with the texts of its uses, and those of lists it is given, in order |
| DocoptTally.DrawIsMatch | cmake/fmt/support/docopt.py:221-229 | what is taken until a match fails agrees with the matcher on success, and on parts that take nothing when they fail |
| DocoptRun.RunBest | cmake/fmt/support/docopt.py:270-279 | the best branch's outcome, or all handed back |
| Docopt.RunsOn | cmake/fmt/support/docopt.py:57-69 | the matcher can be run on any fixed pattern and parsed command line; modes rule exactly the names whose leaves accumulate alike where the options given hold what they add, and of those exactly the names of retyped leaves accumulate |
| Docopt.FixPattern | cmake/fmt/support/docopt.py:40-69 | a leaf accumulates if and only if a use of the program can give it twice; class and names are kept |
| Docopt.MatchFixed | cmake/fmt/support/docopt.py:574 | matching a fixed pattern raises nothing when the leaves of each name accumulate alike and the options given hold what they add; whenever nothing raises it gives the outcome and the remainder of the specification, collects exactly the used names, and for every such name that does not accumulate exactly the values given, in order; on straight patterns it raises if and only if two uses clash, and the values collected are the tally of the uses |
| Docopt.FixAndMatch | cmake/fmt/support/docopt.py:574-576 | fix and match together, on any pattern whose equal leaves start alike: nothing raises when the leaves of each name are of one kind and the options given hold what that kind adds; whenever nothing raises, success only on a derivable use of the original pattern that takes positionals from the front, exactly the used names are collected, and under every name like that a leaf that no use can give twice has exactly the value it was given; on tame patterns it succeeds with nothing left if and only if the command line is derivable; on straight patterns it raises if and only if two uses clash, and else the values collected are the tally of the uses |
| Docopt.AgreedAlike | cmake/fmt/support/docopt.py:57-69 | when the leaves of each name are of one kind and the options given hold what that kind adds, so it is after fix |
| Docopt.KindsHeld | cmake/fmt/support/docopt.py:60-68 | after fix a leaf holds a list, a number or its own value as the uses of the program and its class say |
| DocoptClash.AddsIff | cmake/fmt/support/docopt.py:118-130 | for values of every kind: when what one leaf left of a value takes the increment of another leaf for a second value |
| DocoptClash.GatherInTurn | cmake/fmt/support/docopt.py:118-130 | any number of leaves of one name that take an element each: the run raises if and only if some later leaf was retyped and its increment does not add to what the first left |
| DocoptClash.KindListed | cmake/fmt/support/docopt.py:57-69 | in a usage that lists its leaves one accumulates if and only if it is listed twice |
| DocoptClash.RunListed | cmake/fmt/support/docopt.py:574 | fix and match on any usage that lists its leaves, and any command line: it raises if and only if two uses clash |
| DocoptClash.RaisesInOrder | cmake/fmt/support/docopt.py:118-130 | options of one name given in the order listed clash if and only if one that is listed twice adds something else than what the first left |
| DocoptClash.ClashingRun | cmake/fmt/support/docopt.py:118-130 | usage `-b <y> -a <x> -a <x>`, both also called --all, raises on `-b 1 -a 2 -a 3` |
| DocoptClash.MixedRun | cmake/fmt/support/docopt.py:118-130 | usage `-a <x> -a <x> -b -b`, both also called --all, raises on `-a 1 -a 2 -b -b` |
| DocoptClash.FlagGivenRun | cmake/fmt/support/docopt.py:118-130 | usage `-b <y> -b <y>` raises on `-a -b 1`, where the flag -a is also called --all |
| DocoptClash.FirmIsStraight | cmake/fmt/support/docopt.py:221-229 | every pattern of leaves that must be given is straight |
| DocoptProgram.Grow | cmake/fmt/support/docopt.py:402-425 | one object for each leaf and node of the parsed tree, none shared |
| DocoptProgram.ParsedHolds | cmake/fmt/support/docopt.py:557-574 | the objects of a parsed pattern in which no bundle is repeated are what fix and match ask for |
| DocoptProgram.Respond | cmake/fmt/support/docopt.py:557-580 | from the tokens of a usage to the reply: refused with the parser's error exactly when it does not parse; else answered if and only if the match succeeds with nothing left over, on a tame usage if and only if the command line is derivable; on a straight usage a TypeError if and only if two uses clash, and on none where all names agree. The answer is a dictionary over exactly the names of the usage: under a name no use has, the default of the last leaf with it; under an agreed name whose leaf no use can give twice, what its last use tells; on straight usages under every used name what the uses add up to |
| DocoptReply.Dictionary | cmake/fmt/support/docopt.py:576 | the keys are the names of the pattern's leaves and of those collected, and of entries with one name the last one counts |
| DocoptReply.CompleteHeld | cmake/fmt/support/docopt.py:576 | the dictionary of a match has a value for exactly the names of the usage |
| DocoptReply.DefaultedHeld | cmake/fmt/support/docopt.py:57-69 | under a name no use has it holds what the last leaf with it was created with, or, if a use could give it twice, no words, the words of its text, or zero |
| DocoptReply.TellsHeld | cmake/fmt/support/docopt.py:112-130 | under an agreed name whose leaf no use can give twice it holds the text, that the command was given, or the option's value, of the last use |
| DocoptReply.TallySums | cmake/fmt/support/docopt.py:118-130 | what uses add up to, where none clashes: under a plain name what its last use tells, under a counting one the number of its uses, under a listing one all their texts in order |
| DocoptParser.ParseLong | cmake/fmt/support/docopt.py:301-331 | a parsed long option consumes at least one token and keeps the option list well formed |
| DocoptParser.ParseShorts | cmake/fmt/support/docopt.py:334-366 | the same for a bundle of short options |
| DocoptParser.ParseSeq | cmake/fmt/support/docopt.py:390-399 | stops only at the end, a closing bracket or a bar |
| DocoptPrinter.OptionBack | cmake/fmt/support/docopt.py:301-366 | an option that is declared, or that is unknown and says nothing about itself but how it is written, parses to that option however it is written: by either of its names, its argument in the same token or in the next one; what follows is left, and an unknown one is added |
| DocoptPrinter.LongBack | cmake/fmt/support/docopt.py:301-331 | a long option that is the only one known under its name, or unknown: `--x`, `--x=ARG` and `--x ARG` each give exactly that option and leave what follows |
| DocoptPrinter.BundleBack | cmake/fmt/support/docopt.py:334-366 | a bundle of any number of short options, known or new, gives all of them in order; the argument of the last one is the rest of the token or the next token |
| DocoptPrinter.BundleThenSeq | cmake/fmt/support/docopt.py:390-399 | in a sequence a bundle stands for all its options, or, before a repetition mark, for one repetition of all of them |
| DocoptPrinter.NewLong | cmake/fmt/support/docopt.py:312-315 | a long option that nobody knows is added as a flag that is off, or, written with `=`, with one argument that is unset |
| DocoptPrinter.NewLetter | cmake/fmt/support/docopt.py:344-346 | a letter that nobody knows is added as a flag that is off, and the bundle goes on |
| DocoptPrinter.NewWord | cmake/fmt/support/docopt.py:422-425 | a word gives an argument that is unset or a command that is not given, by its name |
| DocoptPrinter.LongRefused | cmake/fmt/support/docopt.py:310-325 | a long option is refused if and only if its name is known several times, or it is a flag with a value, or it needs an argument and the tokens end or go on with `--`; each with its own error |
| DocoptPrinter.LetterRefused | cmake/fmt/support/docopt.py:341-358 | a short option is refused if and only if its letter is known several times, or it needs an argument and neither its token nor a next one holds one |
| DocoptPrinter.NamedAsWritten | cmake/fmt/support/docopt.py:206-208 | a leaf is named as it is written: a word by itself, an option by its long name, or its short one if it has no other |
| DocoptPrinter.SpecialTokens | cmake/fmt/support/docopt.py:402-425 | the options marker, the dashes that are words, a repetition mark with nothing before it, and the empty token that passes for a bracket |
| DocoptPrinter.LooksArgumentIff | cmake/fmt/support/docopt.py:422-425 | a word is an argument if and only if it is written in angle brackets or in letters that are all upper case |
| DocoptPrinter.AtomBack | cmake/fmt/support/docopt.py:402-425 | parsing a printed atom gives it back and leaves what follows |
| DocoptPrinter.SeqBack | cmake/fmt/support/docopt.py:390-399 | the same for printed sequences, with repetition marks |
| DocoptPrinter.AlternativesBack | cmake/fmt/support/docopt.py:383-387 | the same for printed branches after a bar |
| DocoptPrinter.ExprBack | cmake/fmt/support/docopt.py:377-387 | the same for printed expressions |
| DocoptPrinter.SlotsBack | cmake/fmt/support/docopt.py:377-387 | any number of branches that may be empty: one branch is itself, several are an Either of those that are not empty, unless no more than one is left |
| DocoptPrinter.Unclosed | cmake/fmt/support/docopt.py:410-414 | an expression in a bracket that is not closed, or closed by the other kind, is an unmatched bracket |
| DocoptPrinter.Unopened | cmake/fmt/support/docopt.py:369-374 | a closing bracket too many is an unexpected ending |
| DocoptPrinter.PatternRoundTrip | cmake/fmt/support/docopt.py:369-374 | parsing the printed form of any normal-form usage tree, whatever spelling is chosen for each of its options, gives the same tree with no tokens left, and the list of options grown by the options it did not know, in order of their first occurrence |
| DocoptPrinter.LearnedNothing | cmake/fmt/support/docopt.py:301-366 | where every option is known under its name none is added |
| DocoptLeaves.ParsedLeaves | cmake/fmt/support/docopt.py:301-425 | whatever the tokens, in a parsed pattern leaves of one class and names hold one value, flags and commands a boolean and the others a text or nothing |
| DocoptLeaves.FoundSole | cmake/fmt/support/docopt.py:306-321 | an option found under a name that only it has is the only one with its names |
| DocoptLeaves.AddedSole | cmake/fmt/support/docopt.py:312-315 | an option added under a name that none has keeps every other the only one with its names |
| DocoptParser.ParsedRuns | cmake/fmt/support/docopt.py:369-374 | for every token list that parses, the tree has one child under every repetition if and only if no bundle of several options is repeated; every Either has branches and every option a name |
| DocoptPrinter.RepeatedBundleIsNotUnary | cmake/fmt/support/docopt.py:394-396 | the tokens `-ab ...` parse to a repetition of exactly the two options |
| DocoptPrinter.RepeatedBundle | cmake/fmt/support/docopt.py:394-396 | any bundle of two undeclared options that is repeated parses to one repetition of both |
| DocoptPrinter.BundleBehind | cmake/fmt/support/docopt.py:390-399 | what the tokens of `[<a>]... <b> -cd...` parse to |
| DocoptAssertion.TryIsMatch | cmake/fmt/support/docopt.py:248-249 | where every repetition has one child, the matcher with its assertion gives the matcher's outcome on every command line |
| DocoptAssertion.ParsedNeverFails | cmake/fmt/support/docopt.py:248-249 | whatever the tokens and the command line, the assertion does not fail on a parsed pattern in which no bundle is repeated |
| DocoptAssertion.EagerFails | cmake/fmt/support/docopt.py:248-249 | a bad repetition that is tried first, after parts that always succeed, or among parts that are all tried fails on every command line |
| DocoptAssertion.FailsIff | cmake/fmt/support/docopt.py:221-249 | behind other parts it fails on exactly the command lines on which those parts succeed |
| DocoptAssertion.ReachedIff | cmake/fmt/support/docopt.py:221-249 | behind willing parts that is on exactly the command lines that have what some use of those parts needs |
| DocoptAssertion.RepeatedBundleFails | cmake/fmt/support/docopt.py:248-249 | the pattern parsed from `-ab...` fails on every command line |
| DocoptAssertion.NeverReached | cmake/fmt/support/docopt.py:248-249 | the pattern parsed from `[<a>]... <b> -cd...` repeats a bundle, yet fails on no command line |
| DocoptParser.Parser.LongOption | cmake/fmt/support/docopt.py:301-331 | popping tokens one by one gives the result, the rest, the option list or the error of the grammar |
| DocoptParser.Parser.ShortOptions | cmake/fmt/support/docopt.py:334-366 | the same for a bundle |
| DocoptParser.Parser.Atom | cmake/fmt/support/docopt.py:402-425 | the same for an atom |
| DocoptParser.Parser.Seq | cmake/fmt/support/docopt.py:390-399 | the same for a sequence |
| DocoptParser.Parser.Expr | cmake/fmt/support/docopt.py:377-387 | the same for an expression |
| DocoptParser.Parser.Parse | cmake/fmt/support/docopt.py:369-374 | on every token list the mutual recursion ends with the grammar's tree or its error |
| Framing.DecodeEncode | src/client/client_config.cpp:31-40 | decoding an encoded 32-bit length gives it back |
| Framing.EncodeDecode | src/server/server_config.cpp:23-32 | encoding a decoded prefix gives its four bytes back |
| Framing.EncodeU32 | src/server/server_config.cpp:27-32 | the first four bytes of the buffer become the prefix of the length, the others stay |
| Framing.DecodeIsNumber | src/server/server_config.cpp:23-25 | the prefix is read as digits to the base 256, the first byte highest |
| Framing.EncodeOrder | src/server/server_config.cpp:27-32 | the first byte in which the prefixes of two lengths differ is lower in that of the lower length |
| Framing.FrameIs | src/client/client_config.cpp:124-129 | a frame is four bytes that spell the length of the payload, the highest first, and then the payload |
| Framing.BuildFrame | src/client/client_config.cpp:124-129 | the filled buffer is the prefix followed by the payload |
| Framing.Drain | src/client/client_config.cpp:58-106 | the chain stops, waiting for bytes that are not there, and keeps what it handed on |
| Framing.DrainReceive | src/client/client_config.cpp:62-100 | bytes that arrive after the chain ran might as well have arrived before |
| Framing.ScanMore | src/client/client_config.cpp:58-106 | parsing a stream and then more of it is parsing the whole; what was handed on is never taken back |
| Framing.ScanFrames | src/client/client_config.cpp:58-106 | parsing the frames of acceptable payloads gives exactly the payloads, with nothing unread |
| Framing.ScanBadHeader | src/client/client_config.cpp:76-84 | frames, then a length of 0 or above the limit, then any bytes: exactly the payloads before it are handed on, and the chain is closed |
| Framing.ScanPrefix | src/client/client_config.cpp:58-106 | a stream of frames that is cut short gives a prefix of the payloads |
| Connection.ChunkIndependence | src/client/client_config.cpp:58-106 | however a stream is cut and handlers interleave with arrivals, the chain hands on what the parser finds in the whole stream, a prefix of it while it runs or after a failure |
| Connection.FramesDelivered | src/client/client_config.cpp:58-135 | of frames written, exactly the payloads are handed on in order once all bytes arrived, a prefix of them before |
| Connection.Client.Write | src/client/client_config.cpp:116-135 | refuses exactly the empty payload and those above 64 MiB, and writes one frame for any other |
| Connection.Client.OnHeader | src/client/client_config.cpp:62-84 | the header handler takes the specified step; an error or a bad length closes the socket and stops the context |
| Connection.Client.OnBody | src/client/client_config.cpp:86-100 | the body handler hands the payload on once |
| Connection.Client.OnPosted | src/client/client_config.cpp:99 | the posted call waits for the next header |
| Connection.Client.Arrived | src/client/client_config.cpp:62 | bytes that arrive are queued behind those unread |
| Relay.RegistryStep | src/server/server_config.cpp:34-111 | every step keeps: registered iff open iff exactly one continuation outstanding, no duplicates, at most one accept pending |
| Relay.LeavesIff | src/server/server_config.cpp:38-80 | a socket leaves the registry when its read fails or its header is 0 or above the limit, and only then: a good header, a body and all that happens to others leave it open |
| Relay.JoinsIff | src/server/server_config.cpp:91-94 | a socket joins the registry when its accept completes, and only then |
| Relay.WriteAllExact | src/server/server_config.cpp:102-105 | each registered open socket but the sender is written the frame once, nobody else anything |
| Relay.WritesPerFrame | src/server/server_config.cpp:102-105 | a handled frame causes exactly registry size minus one writes |
| Relay.Server.constructor | src/server/server_config.cpp:87-91 | the server starts with an empty registry and one pending accept |
| Relay.Server.CloseSocket | src/server/server_config.cpp:40-47 | close, find and erase take the socket out of the registry and end its chain |
| Relay.Server.EraseSocket | src/server/server_config.cpp:44-45 | find and erase take exactly the first entry of the socket out of the registry, or nothing when it is not there |
| Relay.Server.OnAccept | src/server/server_config.cpp:91-108 | the accept handler takes the specified step, with or without an error; `RelayHistory.AcceptsGoOn` says when the next accept follows |
| Relay.Server.RunAcceptor | src/server/server_config.cpp:87-91 | the posted call starts the next accept |
| Relay.Server.OnArrived | src/server/server_config.cpp:38 | bytes that arrive are queued for the socket |
| Relay.Server.Broadcast | src/server/server_config.cpp:95-106 | the loop over the registry makes the specified writes, as many as counted |
| Relay.Server.OnHeader | src/server/server_config.cpp:38-61 | the header handler takes the specified step |
| Relay.Server.OnBody | src/server/server_config.cpp:63-80 | the body handler broadcasts the payload and re-arms the chain |
| Relay.Server.OnPosted | src/server/server_config.cpp:77 | the posted call waits for the next header |
| RelayHistory.RunInv | src/server/server_config.cpp:34-111 | over every run of accepts, arrivals, completions and failures the invariant of registry, membership, outputs and read chains holds |
| RelayHistory.RegistryAlways | src/server/server_config.cpp:38-108 | in every reachable state the registry invariant holds and each frame handled causes one write per other socket |
| RelayHistory.AcceptsGoOn | src/server/server_config.cpp:87-111 | in every run exactly one accept is pending or posted as long as no accept has failed, and none from then on |
| RelayHistory.AnyNumberJoins | src/server/server_config.cpp:87-111 | for every number some run has that many sockets registered at once, and the next accept pending |
| RelayHistory.StaysIff | src/server/server_config.cpp:38-80 | a socket whose client writes only frames stays registered if and only if no read of it has failed, however the bytes are cut |
| RelayHistory.SentExactly | src/server/server_config.cpp:94-106 | the bytes written to a client are the frames that others sent while it was registered, each once, in the order handled |
| RelayHistory.SenderFifo | src/server/server_config.cpp:74-106 | what a client is sent of another is a contiguous block of what that one sent, in order, each once; of its own frames it is sent none |
| RelayHistory.TotalOrder | src/server/server_config.cpp:34-111 | the frames of third clients handled while two clients were both registered are sent to both as one and the same block |
| RelayHistory.OwnPrefix | src/server/server_config.cpp:49-74 | what was handled of a socket is a prefix of what the parser finds in the bytes it received |
| RelayHistory.HandledPrefix | src/server/server_config.cpp:34-84 | what was handled of a client is a prefix of the payloads it wrote |
| RelayHistory.HandledAll | src/server/server_config.cpp:34-84 | once all bytes a client wrote have arrived and its chain waits for more, every payload it wrote was handled |
| RelayHistory.HandledUnlessFailed | src/server/server_config.cpp:34-84 | unless a read of its socket failed, every payload a client wrote is handled once its bytes have arrived and no handler of it is due |
| RelayHistory.EndToEnd | src/client/client_config.cpp:58-135 | from one client's write through the relay to another's handler, over every run of all three and every cutting of the bytes: a prefix of what was sent is delivered, all of it once all bytes arrived; each sender's part is a block of what it wrote, of all it wrote once all its bytes arrived at the server and its chain waits for more |
| PrintableRanges.ListGap | cmake/fmt/support/printable.py:57-58 | the codes between two rows are listed with the category of the range they are in |
| PrintableRanges.GetCodepoints | cmake/fmt/support/printable.py:44-71 | fails exactly when a First row is not followed by its Last row; else every code point is listed once, in order, with its category, except code 0 when no row has it |
| PrintableRanges.GetEscaped | cmake/fmt/support/printable.py:30-33 | ascending, and exactly the points whose category is escaped or empty, the space excepted |
| PrintableRanges.EscapedIff | cmake/fmt/support/printable.py:30-33 | of the thirty general categories exactly those of controls and separators are escaped, the space excepted |
| PrintableRanges.ToRanges | cmake/fmt/support/printable.py:18-28 | ascending disjoint ranges that cover exactly the codes, are as long as they can be, and never cross 0x10000 or 0x20000 |
| PrintableCoding.CompressSingletons | cmake/fmt/support/printable.py:73-87 | expanding the groups gives the singletons back, the counts sum to the number of lowers, each lower is the low byte of its singleton and its high byte has a group, uppers ascend, and when no three consecutive codes are listed no count exceeds 171 |
| PrintableCoding.SparseSpread | cmake/fmt/support/printable.py:145-166 | codes of which at most two of any three consecutive are listed spread over the bound that counting needs |
| PrintableCoding.Entry | cmake/fmt/support/printable.py:101-111 | an entry is a complete code and decodes, by the documented rule, to exactly the gap and the length |
| PrintableCoding.CodeForm | cmake/fmt/support/printable.py:90-91 | a length up to 7f is one byte; others are the two bytes, higher one first, of 0x8000 plus the length |
| PrintableCoding.TwoBytesForm | cmake/fmt/include/fmt/format-inl.h:1817-1818 | the lookup reads two bytes as that number without its top bit |
| PrintableCoding.CompressNormal | cmake/fmt/support/printable.py:89-115 | succeeds exactly when every gap and length is below 0x8000, and then decoding the flattened table gives the ranges back |
| PrintableCoding.RunsRoundTrip | cmake/fmt/support/printable.py:94-98 | gaps and lengths determine the ranges |
| PrintableCoding.CodedBytes | cmake/fmt/support/printable.py:101-111 | every value of a coded table fits a byte |
| PrintableCoding.CodedAppend | cmake/fmt/support/printable.py:90-92 | coded tables decode part by part: no code is a prefix of another |
| PrintableTables.LookupSingletons | cmake/fmt/include/fmt/format-inl.h:1800-1812 | the search with its early exit finds x exactly if the expanded table lists it |
| PrintableTables.Contains | cmake/fmt/include/fmt/format-inl.h:1807-1809 | the inner loop finds a lower half exactly if its group lists it |
| PrintableTables.LookupNormal | cmake/fmt/include/fmt/format-inl.h:1814-1823 | walking the bytes is walking the decoded lengths |
| PrintableTables.WalkFindsRun | cmake/fmt/include/fmt/format-inl.h:1814-1823 | over coded ranges the walk ends printable exactly if x is in none of them |
| PrintableTables.Lookup | cmake/fmt/include/fmt/format-inl.h:1795-1824 | one plane's lookup denies what either of its two tables lists |
| PrintableTables.IsPrintable | cmake/fmt/include/fmt/format-inl.h:1955-1975 | the plane decides the table, the extra ranges and the last code point the rest |
| PrintableTables.Classify | cmake/fmt/support/printable.py:145-166 | the loop puts every range where the specification puts it |
| PrintableTables.PlaceEncodes | cmake/fmt/support/printable.py:146-166 | placing a range encodes exactly its code points, unless it is a short one at 0x20000 |
| PrintableTables.PlaceSorts | cmake/fmt/support/printable.py:146-166 | where a range goes by its plane and length: one or two code points are singletons of their plane, more a run of it; from 0x20000 on all are extra but for a short one just there |
| PrintableTables.PlaceOrdered | cmake/fmt/support/printable.py:145-166 | the five lists stay ascending, disjoint and sparse, as the codings need |
| PrintableTables.LostIffShort | cmake/fmt/support/printable.py:146-159 | a range is lost exactly when 0x20000 is escaped and one of its two successors is not |
| PrintableTables.ExactIff | cmake/fmt/support/printable.py:145-171 | over tables of the lists the lookup is exact if and only if no range is lost; below 0x20000 it always is |
| PrintableTables.MakeTable | cmake/fmt/support/printable.py:168-171 | a plane's tables spell out its lists, unless a length is refused |
| PrintableTables.Generate | cmake/fmt/support/printable.py:133-171 | from escaped codes to tables: refused exactly when a gap or length needs more than 15 bits; else lookup and set agree on every code point, and every entry fits a byte, if and only if no short range starts at 0x20000 |
| PrintableTables.Build | cmake/fmt/support/printable.py:133-171 | from the rows of the database to the lookup: tables are produced if and only if every First row is followed by its Last row and no gap or length needs more than 15 bits; agreement on every code point, exactly under two conditions on the rows |
| GpgKeys.CanKeyEncrypt | src/client/gpg_config.cpp:46-103 | accepts exactly the keys that are valid and can encrypt themselves or whose first capable subkey is valid, and throws the first error otherwise |
| GpgKeys.CanKeyDecrypt | src/client/gpg_config.cpp:105-167 | the same with a secret key and secret subkeys |
| GpgKeys.CheckSubkeys | src/client/gpg_config.cpp:77-102 | the loop's verdict is that of the first capable subkey |
| GpgKeys.SubkeysVerdictMeans | src/client/gpg_config.cpp:79-100 | a verdict of capable means a first capable subkey that is valid; lacking capability means no subkey has it |
| GpgKeys.VerdictsMean | src/client/gpg_config.cpp:46-167 | both checks accept exactly the usable keys |
| GpgKeys.UsableFields | src/client/gpg_config.cpp:46-167 | what usable is, field by field: a valid primary key that can encrypt, or whose first subkey that can, and is secret where that is asked, is valid |
| GpgKeys.ErrorsMean | src/client/gpg_config.cpp:46-167 | each error of both checks with the exact condition on the key: the first that applies of null, revoked, disabled, expired, not secret, no subkeys, no capable subkey, and the first capable subkey revoked, expired or disabled |
| GpgKeys.KeysThrow | src/client/gpg_config.cpp:179-184 | the loop over the keys throws an error if and only if the first key that is not usable does |
| GpgKeys.CheckKeys | src/client/gpg_config.cpp:179-184 | the loop over the keys has the verdict of the first key that cannot be encrypted to |
| GpgKeys.KeysVerdictMeans | src/client/gpg_config.cpp:179-184 | all keys pass if and only if every one is usable |
| GpgKeys.EncryptsIff | src/client/gpg_config.cpp:169-205 | encryption gives bytes exactly when a context starts, there are keys, all are usable, there is data, and the operation gives output |
| GpgKeys.EncryptRaises | src/client/gpg_config.cpp:169-205 | each error of encryption with its exact condition, in order of precedence |
| GpgKeys.DecryptsIff | src/client/gpg_config.cpp:207-250 | decryption gives bytes exactly when a context starts, the key is usable, the data is binary, the passphrase is not empty, and the operation gives output |
| GpgKeys.DecryptRaises | src/client/gpg_config.cpp:207-250 | each error of decryption with its exact condition, in order of precedence |
| GpgKeys.PassphraseAcceptedIff | src/client/gpg_config.cpp:169-264 | a passphrase is accepted if and only if the key is usable both ways, the passphrase is not empty, and the oracle decrypts with it what it encrypted to that key |
| Recipients.ArrowsWrap | src/client/gpg_screens.cpp:304-320 | over a non-empty list no int or size_t conversion wraps: the arrows go round |
| Recipients.FindMeans | src/client/gpg_screens.cpp:335-338 | the search ends at a recipient with the fingerprint, or there is none |
| Recipients.RunRefines | src/client/gpg_screens.cpp:303-381 | after every event sequence the recipients are distinct listed keys, exactly those whose last take or untake was a take, and the cursor is downs minus ups modulo the key count |
| Recipients.Pigeonhole | src/client/gpg_screens.cpp:331-349 | distinct recipients drawn from the keys are never more than the keys |
| Recipients.NothingDropped | src/client/gpg_screens.cpp:385-390 | the size guards never drop a selection: confirming yields all that were taken |
| Recipients.WarnedIff | src/client/gpg_screens.cpp:369-381 | after any events the warning is shown if and only if at the last Return no key had been taken and not untaken since |
| Recipients.RecipientMenu.FindRecipient | src/client/gpg_screens.cpp:335-338 | the search loop finds what the specification finds |
| Recipients.RecipientMenu.OnEvent | src/client/gpg_screens.cpp:303-381 | the handler that updates fields takes the specified step for every event |
| Recipients.RecipientMenu.IsRecipientKeySelected | src/client/gpg_screens.cpp:406-424 | true exactly for the keys among the recipients, under the guards on sizes and cursor |
| Session.SafeStep | src/client/main.cpp:74-148 | no event on any screen shows a screen that was not earned, or an error screen without a handler |
| Session.RunSafe | src/client/main.cpp:59-148 | the same over every run |
| Session.ChatIsEarned | src/client/main.cpp:74-148 | the chat is reached only with a key that can decrypt, a non-empty passphrase the oracle accepted for that same key, and recipients that can all be encrypted to |
| Session.ProgressStep | src/client/main.cpp:80-138 | a step never loses progress and gains at most one screen; an error screen goes back where it came from |
| Session.RunProgress | src/client/main.cpp:59-148 | over every run progress never goes backwards |
| Session.ErrorHasHandler | src/client/message_screens.cpp:75-91 | whenever an error screen is shown its handler is set, to a screen that is no error |
| Session.ChatAddressesTaken | src/client/main.cpp:117-148 | a chat addresses exactly the keys whose last take or untake in the menu was a take |
| Session.ChatIsFinal | src/client/client_chat_screen.cpp:168 | over every run: once the chat is shown it is shown after every further event, failed sends included |
| Session.FailedSendUnseen | src/client/message_screens.cpp:75-91 | over every run: an error screen never has the handler a failed send stored; running its handler leads to a real screen before the chat |
| Session.CursorInRange | src/client/gpg_screens.cpp:133-161 | over a non-empty list the login cursor stays on a listed account |
| SessionFlow.LoginLeads | src/client/main.cpp:89-115 | Return at login stores the account under the cursor, and nothing else does: a key that can decrypt leads to the passphrase, another one to an error, no key nowhere |
| SessionFlow.PassphraseLeads | src/client/main.cpp:74-86 | a passphrase leads on if and only if the key works both ways and the oracle accepts it, else to an error |
| SessionFlow.RecipientsLead | src/client/main.cpp:117-148 | confirming leads to the chat if and only if there are recipients and all can be encrypted to, to an error if and only if one cannot |
| SessionFlow.MenuSees | src/client/gpg_screens.cpp:303-381 | a take is a take, an untake an untake, and arrows and Return are what they are to the recipient menu, when it is shown |
| SessionFlow.AccountIsChosen | src/client/main.cpp:89-115 | over every run: beyond login the account is the listed one that the arrows pressed there lead to, downs minus ups modulo the number of accounts |
| SessionFlow.ChatReachableIff | src/client/main.cpp:59-148 | some run of events reaches the chat if and only if some account works both ways with some passphrase the oracle accepts for it and some key can be encrypted to |
| Session.App.OnLogin | src/client/main.cpp:89-115 | the callback takes the specified step: account stored, then prompt, error or nothing |
| Session.App.OnLoginArrow | src/client/gpg_screens.cpp:133-150 | the arrow handlers take the specified step, with the code's mix of int and size_t |
| Session.App.OnEdit | src/client/message_screens.cpp:224 | the field changes only the passphrase |
| Session.App.OnMenu | src/client/main.cpp:117-148 | arrows and letters go to the recipient menu and change no screen |
| Session.App.OnEscape | src/client/message_screens.cpp:211-217 | Esc leaves and changes nothing else |
| Session.App.OnSubmit | src/client/main.cpp:74-86 | the callback takes the specified step |
| Session.App.OnConfirm | src/client/main.cpp:117-148 | the loop over recipients admits to the chat exactly if every one can be encrypted to |
| Session.App.OnErrorReturn | src/client/message_screens.cpp:85-90 | the handler is run, and it only changes the screen |
| Session.App.OnSendFailed | src/client/client_chat_screen.cpp:270-283 | a failed send replaces the shared handler and leaves the shown screen |
| HandlerStorage.AlignUpMeans | lib/asio/asio/any_completion_handler.hpp:146-147 | the alignment step gives the lowest aligned address at or above the base |
| HandlerStorage.AllocationFits | lib/asio/asio/any_completion_handler.hpp:141-157 | whatever the base, an aligned block results if and only if the padded size does not wrap, and with its trailer it is inside the allocation if and only if the total does not either |
| HandlerStorage.ReadWritten | lib/asio/asio/any_completion_handler.hpp:149-172 | the bytes of an offset copied to memory read back as that offset |
| HandlerStorage.NewBlockSound | lib/asio/asio/any_completion_handler.hpp:147-151 | writing a new trailer leaves the trailers of all live blocks |
| HandlerStorage.StoreKeeps | lib/asio/asio/any_completion_handler.hpp:147-151 | writing inside a block touches no trailer |
| HandlerStorage.Storage.Allocate | lib/asio/asio/any_completion_handler.hpp:132-157 | among any live blocks, for every size: the throw is reached if and only if the size itself wraps; else the block is aligned and the word behind it holds its offset, block and trailer are inside the allocation if and only if no size wraps, and then all live blocks keep their trailers |
| HandlerStorage.Storage.Store | lib/asio/asio/any_completion_handler.hpp:147-151 | any byte of a live block may be written without harm to what deallocate will find |
| HandlerStorage.Storage.Deallocate | lib/asio/asio/any_completion_handler.hpp:159-177 | in any interleaving of live blocks the original base and total size are recovered and given back; a null pointer is ignored |
| HandlerOwnership.StepKeeps | lib/asio/asio/any_completion_handler.hpp:642-725 | every operation keeps: one owner at most, owned objects alive, all others released exactly once, every call clean |
| HandlerOwnership.RunInv | lib/asio/asio/any_completion_handler.hpp:642-759 | the same over every sequence of operations |
| HandlerOwnership.ReleasedExactlyOnce | lib/asio/asio/any_completion_handler.hpp:91-116 | no object is released twice or while owned, storage of a throwing constructor is freed, and once every wrapper is gone everything was released exactly once |
| HandlerOwnership.InvokeKeeps | lib/asio/asio/any_completion_handler.hpp:748-759 | a target runs at most once, with its storage released and its wrapper empty |
| HandlerOwnership.InvokeRuns | lib/asio/asio/any_completion_handler.hpp:748-759 | a call through a wrapper runs the object it owns, once, as the type of that object; through an empty one nothing runs |
| HandlerOwnership.CallsRunTheirKind | lib/asio/asio/any_completion_handler.hpp:642-759 | over every sequence of operations each call ran its object as the type that the object was constructed as |
| HandlerOwnership.AssignKeeps | lib/asio/asio/any_completion_handler.hpp:684-690 | move assignment releases the target's object and takes the other's; onto itself it does nothing |
| HandlerOwnership.Wrapper.Move | lib/asio/asio/any_completion_handler.hpp:670-676 | the new wrapper has what the other had, and the other is empty |
| HandlerOwnership.Wrapper.SwapWith | lib/asio/asio/any_completion_handler.hpp:719-723 | the two exchange their contents |
| HandlerOwnership.Wrapper.MoveAssign | lib/asio/asio/any_completion_handler.hpp:684-690 | through a temporary, own object released once and the other's taken over; self-assignment changes nothing |
| HandlerOwnership.Wrapper.AssignNull | lib/asio/asio/any_completion_handler.hpp:693-697 | the wrapper is empty and its object released once |
| HandlerOwnership.Wrapper.Destruct | lib/asio/asio/any_completion_handler.hpp:700-704 | an owned object is destroyed and freed once |
| HandlerOwnership.Wrapper.Invoke | lib/asio/asio/any_completion_handler.hpp:748-759 | the target finds its storage released and its wrapper empty; an empty wrapper throws instead |
| HandlerHeap.Heap.Holds | lib/asio/asio/any_completion_handler.hpp:642-759 | the invariant of the model on the heap: an owned object is alive and no other wrapper has it |
| HandlerHeap.Heap.Construct | lib/asio/asio/any_completion_handler.hpp:91-110 | allocating, constructing and wrapping a handler is the step of the model, and the wrapper has the table and an object of the given type |
| HandlerHeap.Heap.ConstructFails | lib/asio/asio/any_completion_handler.hpp:99-110 | when the handler's constructor throws the guard frees the storage, as in the model |
| HandlerHeap.Heap.MoveConstruct | lib/asio/asio/any_completion_handler.hpp:670-676 | move construction is the step of the model |
| HandlerHeap.Heap.MoveAssign | lib/asio/asio/any_completion_handler.hpp:684-690 | move assignment through a temporary, self-assignment included, is the step of the model |
| HandlerHeap.Heap.AssignNull | lib/asio/asio/any_completion_handler.hpp:693-697 | assigning null through a temporary is the step of the model |
| HandlerHeap.Heap.Swap | lib/asio/asio/any_completion_handler.hpp:719-723 | swapping fields is the step of the model, also with itself |
| HandlerHeap.Heap.Destroy | lib/asio/asio/any_completion_handler.hpp:700-704 | the destructor is the step of the model |
| HandlerHeap.Heap.Invoke | lib/asio/asio/any_completion_handler.hpp:748-759 | the call operator is the step of the model: the call recorded is the one the target found |

## Left out

- docopt's text handling: regular expressions, `parse_section`, `formal_usage`, `parse_defaults`. The parser starts from tokens.
- The parser in its other mode, for command lines: prefix matching of long options and the values options are given. `Docopt.GivenFor` states what it hands to the matcher; an option's value is the one it has then.
- `isupper` and `split` are modelled on ASCII letters and ASCII white space; equality by printed form is equality of class, names and value.
- DocoptRun.Run: requires one child for each repetition; `DocoptAssertion` says what happens otherwise. Only on straight patterns does it say what the values of accumulating leaves add up to and exactly when an addition raises: elsewhere `+=` also changes collected leaves, and an increment rewrites elements of the command line, on branches that fail, so the sums are not those of the uses. List objects shared between leaves are values here.
- Docopt.MatchFixed: when an addition raises is exact on straight patterns only, as for `DocoptRun.Run`.
- Docopt.FixAndMatch: takes a pattern whose `[options]` markers are already filled in; when an addition raises is exact on straight patterns only, as for `DocoptRun.Run`.
- DocoptProgram.Respond: leaves `[options]` markers without the options that only the documentation lists, and takes usages in which no bundle is repeated; `DocoptAssertion` says what happens otherwise. Under names that accumulate, or whose leaves do not agree, the dictionary's values are known on straight usages only, as for `DocoptRun.Run`.
- Threads other than the io thread, lifetimes of captured references, partial writes, and several writes on one socket at once: the code gives no order for those.
- Shifts and masks on bytes and 32-bit words are division and remainder.
- JSON contents, dates, user names and all rendering, focus and colours. The passphrase field may hold any text after an edit.
- GPGME is a pair of functions on keys, texts and passphrases, so it gives the same answer each time; a listed key has a fingerprint; context settings and the agent's reload are not modelled.
- Session.App.OnLogin: cursor arithmetic over an empty account list is not proved to stay in range; there is no account to select then.
- Sending in the chat is a flag that says whether it throws.
- The raw allocator is a parameter that gives an address apart from all live blocks; that the throw would leak its block is not modelled.
- A target that uses wrappers while it runs is the operations that follow its call.
- `src/server/emtp.cpp`, `resources_config.cpp`, the system-information library, the other networking headers: operating-system and network plumbing.
