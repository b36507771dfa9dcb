# RoTunes core logic in Dafny

RoTunes is a Discord bot written in TypeScript. It chats through a language model that can call tools, plays music, and tracks experience levels, and it keeps its data in MongoDB. This project models the parts of the bot that are real logic rather than Discord, database or network plumbing, and proves what they do:

- **textgen.dfy** (`TextGen`): the tool-calling conversation loop `chatWithFuncs` and the verdict rule of the content-safety scan `scanMessage`. The transcript is the `messages` field of a `ChatRequest` object that the loop grows in place. The language model is a `ModelEndpoint` object that answers each request with the next reply of a finite script. Tools are a map from names to functions.
- **chat.dfy** (`ChatCommand`): the `splitText` chunker, which cuts an answer into Discord-sized messages. It is proved against a state-machine specification (`Splitter`, `Flush`, `HardSplit`, `PlaceLine`, `Feed`, `Finish`). The file also models the assembly of the user's turn: text attachments, `image0 … imageN` names, and the stored conversation.
- **config.dfy** (`Config`): `setNestedKey` and `getNestedKey` over configuration objects on the heap, which can be shared. Properties are stated over `Store` snapshots of a set of objects closed under references.
- **leveling.dfy** (`Leveling`):
  - the quadratic cost of a level;
  - the two `while (true)` loops that convert between experience and level, with their round trip;
  - the leaderboard's range check, sort and slice;
  - the level-up rule with its role tiers.
- **mongohelper.dfy** (`MongoHelper`): `generateDatabaseName`.
- **skip.dfy** (`SkipCommand`): `removeFromQueue`, which works on a `Queue` object in place. Also the bound on the skip amount, the vote rule and how the command ends.
- **debug.dfy** (`DebugCommand`): `convertMillisToHumanReadable`.
- **registration.dfy** (`CommandRegistration`): `checkForValidFile` and `areCommandsRegistered`.
- **text.dfy** (`Text`): the JavaScript string built-ins the source calls. These are `trim` with the ECMAScript white-space set, `split`, `join`, `includes`, `replace` with a string pattern, `slice`, and number-to-string conversion.

The language model, the tools, the database, randomness and the Discord reaction collector are parameters:
- the model's replies are a script;
- the tools are functions;
- stored records and settings are arguments;
- the experience gained is an argument;
- the number of votes is an argument.

The tool-calling loop has no cap on the number of rounds, as in the code. It ends because the scripted model has finitely many replies and a request made after the script runs out fails.

## Model

| member | source | states |
|---|---|---|
| Text.TrimIdempotent | src/commands/textgen/chat.ts:84 | Trimming a trimmed string changes nothing. |
| Text.TrimEmptyIffAllSpace | src/commands/textgen/chat.ts:119 | `s.trim()` is empty (falsy) exactly when every character of s is ECMAScript white space. |
| Text.IndexOfFrom | src/utils/textgen.ts:86 | The position found is the first occurrence of the pattern at or after the start, and None means there is none. |
| Text.RemoveFirst | src/utils/textgen.ts:87 | `replace` with a string pattern cuts out exactly the first occurrence: the characters before it and after it are kept in order, so the result is the pattern's length shorter. A string without the pattern comes back unchanged. |
| Text.SliceIndex | src/commands/textgen/chat.ts:102-104 | A slice bound is clamped to the string, and a negative bound counts back from the end. |
| Text.SliceFromStart | src/utils/leveling.ts:135 | With 0 <= start <= end, slice keeps the positions from start to end or to the end of the sequence, whichever comes first. |
| Text.Split | src/utils/config.ts:10 | `split` returns at least one piece, and no piece contains the separator. |
| Text.JoinSplit | src/commands/textgen/chat.ts:76 | Joining the pieces of a split with the separator gives the string back. |
| Text.TerminatedSplit | src/commands/textgen/chat.ts:115 | The lines of a text, each followed by a line feed, spell the text plus one line feed. |
| Text.SplitFirstPiece | src/commands/textgen/chat.ts:76 | A piece without the separator, followed by the separator, becomes the first piece of the split, and the rest splits on its own. |
| Text.SplitLast | src/index.ts:136 | The last piece of a split is a suffix of the string, preceded by the separator when it is shorter than the string. |
| Text.LastSplitAfter | src/index.ts:136 | The last piece of a split is what follows the last separator. |
| Text.NatToString | src/commands/music/skip.ts:79 | A number prints as one or more decimal digits, and as exactly one digit below 10. |
| Text.NatToStringInjective | src/commands/textgen/chat.ts:396 | Different numbers print differently. |
| TextGen.RunToolCalls | src/utils/textgen.ts:28-42 | The round's tool text is one line per call, in the order the model gave them. A registered name gives an "executed and returned" line with the tool's result. An unknown name gives a "not found" line. The calls that ran are exactly the registered ones, in order. |
| TextGen.ToolResponseAppend | src/utils/textgen.ts:30-42 | The tool text of a list of calls is the tool text of its first part followed by that of the rest. |
| TextGen.ToolResponseOneLinePerCall | src/utils/textgen.ts:34-41 | When names and results hold no line break, the tool text has exactly one line break per call. |
| TextGen.ExecutedAreRegistered | src/utils/textgen.ts:31-32 | Only calls to registered names run, and never more calls than were asked for. |
| TextGen.ExecutedAllRegistered | src/utils/textgen.ts:31-37 | When every name is registered, every call runs, in order. |
| TextGen.ExecutedNoneRegistered | src/utils/textgen.ts:38-41 | When no name is registered, no tool runs. |
| TextGen.FirstToolFree | src/utils/textgen.ts:24-27 | The number of tool rounds: every earlier reply asks for tools, and the reply at that position, if any, asks for none. |
| TextGen.FirstToolFreeUnique | src/utils/textgen.ts:24-27 | Those two properties determine the number of rounds. |
| TextGen.RoundsLength | src/utils/textgen.ts:45-51 | Each tool round adds exactly two messages. |
| TextGen.RoundsAt | src/utils/textgen.ts:45-51 | Round i puts the model's i-th reply at offset 2i and the tool message answering it at 2i+1. |
| TextGen.SentGrowsByOneRound | src/utils/textgen.ts:45-50 | Each request carries the previous request's transcript plus that request's reply and the tool message answering it. |
| TextGen.ModelEndpoint.Chat | src/utils/textgen.ts:17-20 | The model answers with the next scripted reply and records the transcript it was sent. When the script is exhausted, the call fails. |
| TextGen.ToolRound | src/utils/textgen.ts:28-51 | One round: the tool message is appended and the transcript is sent. The new reply, if any, is appended. The calls that ran are those of the latest reply. |
| TextGen.ChatWithFuncs | src/utils/textgen.ts:8-55 | With n the number of tool rounds, the transcript becomes the initial messages, then n rounds of reply plus tool message, then the tool-free reply. That reply is the result's `chat_response` and the transcript is its `full_response`. Request k carries the transcript after k rounds, and the executed calls are those of the n rounds. The result is None exactly when every remaining reply asks for tools. |
| TextGen.NoRoundsYet | src/utils/textgen.ts:14-21 | After the first request, the transcript is the initial one plus the first reply, and only the initial transcript has been sent. |
| TextGen.RoundStep | src/utils/textgen.ts:24-52 | A tool round taken after k rounds leads to the state after k+1 rounds. |
| TextGen.TranscriptShape | src/utils/textgen.ts:14-54 | After k rounds the transcript has length initial + 2k (+1 for the latest reply). The initial messages are untouched. Replies sit at even offsets with their tool messages after them, and the latest reply is last. |
| TextGen.FirstSent | src/utils/textgen.ts:17-20 | The first request carries the initial messages. |
| TextGen.FlaggedNeedsMarker | src/utils/textgen.ts:84-87 | A reply is flagged only if it contains the marker. |
| TextGen.VerdictNeedsUnsafe | src/utils/textgen.ts:86 | A flagged reply contains "unsafe". |
| TextGen.FlaggedOnCategory | src/utils/textgen.ts:84-96 | For a reply of the form marker, line break, code: it is flagged exactly when the code is not the exempt category. |
| TextGen.VerdictOnCategory | src/utils/textgen.ts:84-96 | A reply "unsafe\n" + code is flagged exactly when the code is not S14. |
| TextGen.SafeNotFlagged | src/utils/textgen.ts:96 | "safe" is not flagged. |
| TextGen.VerdictExamples | src/utils/textgen.ts:89-93 | "unsafe\nS14" is not flagged; "unsafe\nS1" is. |
| TextGen.ScanMessage | src/utils/textgen.ts:68-97 | The first request is the trimmed input as the only, user, message. The result is the verdict on the first tool-free reply, or None when the endpoint fails. |
| ChatCommand.SplitLinesPlain | src/commands/textgen/chat.ts:76 | Without carriage returns, the lines are exactly the pieces between line feeds. |
| ChatCommand.PlaceLineFits | src/commands/textgen/chat.ts:114-116 | A line that fits is appended with its line break, no chunk is emitted, and the fence flag flips only on a fence line. |
| ChatCommand.FlushExtends | src/commands/textgen/chat.ts:81-90 | A flush appends exactly one chunk and keeps the fence flag. |
| ChatCommand.PushChunk | src/commands/textgen/chat.ts:81-90 | pushChunk emits the trimmed chunk, closed with a fence when one is open. The next chunk reopens the fence, or starts empty when no fence is open. |
| ChatCommand.SegmentsCoverLine | src/commands/textgen/chat.ts:98-109 | The segments of a hard split, concatenated, give the whole line: no character is dropped. HardSplitContents says which chunks those segments become. |
| ChatCommand.HardSplitFlushes | src/commands/textgen/chat.ts:100-107 | A hard split flushes exactly once between consecutive segments. |
| ChatCommand.HardSplitKeepsFence | src/commands/textgen/chat.ts:98-109 | A hard split only appends chunks and leaves the fence flag as it was. |
| ChatCommand.HardSplitLine | src/commands/textgen/chat.ts:99-108 | The while loop over an over-long line ends in the state the hard-split specification gives. |
| ChatCommand.HardSplitContents | src/commands/textgen/chat.ts:98-109 | What a hard split emits: the first piece is the current chunk followed by what fits of the line, and each later piece is the reopened fence (when one is open) followed by the next segment. Every piece but the last is emitted after the chunks already there, closed with a fence when one is open and trimmed. The last piece is left as the current chunk. |
| ChatCommand.PiecesFlatten | src/commands/textgen/chat.ts:98-109 | With no fence open, the pieces of a hard split spell the current chunk followed by the whole line. |
| ChatCommand.PlaceLineFence | src/commands/textgen/chat.ts:93-116 | Placing a line toggles the fence exactly on fence lines and only appends chunks. |
| ChatCommand.PlaceLineStep | src/commands/textgen/chat.ts:93-116 | One pass of the for loop ends in the state the specification gives. |
| ChatCommand.FeedFence | src/commands/textgen/chat.ts:92-117 | After a run of lines, the fence is open exactly when it was open before and an even number of them are fence lines, or closed before and an odd number are. Chunks are only appended, so they come out in input order. |
| ChatCommand.ChunksTrimmed | src/commands/textgen/chat.ts:84-123 | No chunk splitText returns has white space at either end. |
| ChatCommand.FinishTrailing | src/commands/textgen/chat.ts:119-124 | The trailing chunk is emitted, after all others, exactly when it has non-white-space content. It is closed with a fence when one is open. |
| ChatCommand.FinishStep | src/commands/textgen/chat.ts:119-124 | The code after the loop emits the trailing chunk as the specification says. |
| ChatCommand.FeedFits | src/commands/textgen/chat.ts:92-117 | While everything fits, no chunk is emitted and the lines accumulate, each followed by a line feed. The fence is then open exactly when an odd number of the lines are fence lines. |
| ChatCommand.ShortTextOneChunk | src/commands/textgen/chat.ts:75-127 | A text without carriage returns whose length plus one fits in a chunk comes back as nothing when it is all white space. Otherwise it comes back as one chunk: the text trimmed, or, when an odd number of its lines are fence lines, the text followed by a line feed and a closing fence, trimmed. |
| ChatCommand.BlankChunkEmitted | src/commands/textgen/chat.ts:80-88 | pushChunk emits the trimmed chunk without checking that it is non-empty. A white-space line that fits, followed by a line that does not fit beside it, gives the chunks "" and the second line trimmed. |
| ChatCommand.PlaceContents | src/commands/textgen/chat.ts:93-116 | Placing a line that is not a fence line, in each of the three cases (fits, flush, hard split), keeps the chunks the trimmed pieces of the text so far, with the last piece as the current chunk. The pieces grow by the line and its line feed. |
| ChatCommand.FeedContents | src/commands/textgen/chat.ts:92-117 | For lines without fence lines, the pieces spell the lines, each followed by a line feed. Every piece but the last has been emitted, trimmed and in order, and the last is the chunk being built. |
| ChatCommand.ChunksContents | src/commands/textgen/chat.ts:75-127 | For a text without fence lines, splitText returns trimmed pieces, in order, that together spell the lines each followed by a line feed. Without carriage returns, they spell the text plus one line feed. The last piece is dropped exactly when it is all white space. |
| ChatCommand.SplitText | src/commands/textgen/chat.ts:75-127 | splitText returns exactly the chunks of the specification. |
| ChatCommand.ImageNames | src/commands/textgen/chat.ts:391-397 | One name per image of the conversation. |
| ChatCommand.ImageNamesDistinct | src/commands/textgen/chat.ts:391-397 | Different images get different names. |
| ChatCommand.ImageNamesExtend | src/commands/textgen/chat.ts:388-403 | The names of the existing images are kept when new ones are added. |
| ChatCommand.ListImageNames | src/commands/textgen/chat.ts:389-397 | The naming loop produces image0 … image(count-1). |
| ChatCommand.UserContentStartsWithMessage | src/commands/textgen/chat.ts:356-363 | The user's text comes first. Without attachments it is the whole content. |
| ChatCommand.UserContentImageSection | src/commands/textgen/chat.ts:388-400 | When new images arrived, the content is the text part, unchanged, followed by the image prefix and the names of all images (old and new) joined with ", ". |
| ChatCommand.ChatData.Fresh | src/commands/textgen/chat.ts:374-385 | A fresh conversation holds the system prompt alone and no images. |
| ChatCommand.LoadConversation | src/commands/textgen/chat.ts:371-386 | The first stored conversation is used, or a fresh one when none is stored. |
| ChatCommand.ComposeUserContent | src/commands/textgen/chat.ts:356-400 | The statements building the user's message give UserContent: the message, the text attachments, then the names of all images when new ones came. |
| ChatCommand.AddUserTurn | src/commands/textgen/chat.ts:356-411 | New images go after the existing ones, and the user message with its attachments goes at the end of the transcript. |
| Config.GetNestedKey | src/utils/config.ts:25-41 | getNestedKey returns the value the path walk reads, or None (null) as soon as the current value is not an object or lacks the key. |
| Config.LookupAppend | src/utils/config.ts:31-37 | Reading a longer path continues from where the shorter one ended, and fails if the shorter one failed. |
| Config.LookupThroughScalar | src/utils/config.ts:32-36 | A path that runs into a string, number or boolean before its end reads null. |
| Config.LookupLinked | src/utils/config.ts:31-38 | Following objects linked along the keys reads the value at their end. |
| Config.Existing | src/utils/config.ts:13-19 | The walk passes through the objects already stored along the keys and stops where an entry is missing or not an object. |
| Config.Walk | src/utils/config.ts:13-19 | The same walk, over all keys but the last. |
| Config.WalkStepExisting | src/utils/config.ts:15-18 | A pass over an entry that holds an object changes nothing and moves into it. |
| Config.WalkStepLeave | src/utils/config.ts:15-17 | A missing or non-object entry is replaced by a new empty object. |
| Config.WalkStepNew | src/utils/config.ts:15-17 | Each further pass links one more new empty object. |
| Config.WalkEnd | src/utils/config.ts:21 | The final write puts the value under the last key of the last object. |
| Config.Descend | src/utils/config.ts:14-18 | One pass of the loop, on the heap: a missing or non-object entry becomes `{}`, and the walk moves into the entry. |
| Config.WriteLast | src/utils/config.ts:21 | The write after the loop, on the heap. |
| Config.SetNestedKey | src/utils/config.ts:5-23 | setNestedKey returns the object it was given. Only the last existing object on the path changes, under one key. Each new object holds just the next one, and the last object holds the value. |
| Config.DoneReadsBack | src/utils/config.ts:5-41 | Get after set: the value written, falsy or not, is read back at the path when the walk meets no object twice. |
| Config.DoneFrame | src/utils/config.ts:13-21 | An entry under a key other than the one written keeps its value in every object. |
| Config.DoneSingleKey | src/utils/config.ts:10-21 | A path without a dot writes the top-level key and nothing else. |
| Leveling.ExpToNextLevelFirstValues | src/utils/leveling.ts:32-42 | Levels 0, 1 and 2 cost 10, 15 and 20. |
| Leveling.ExpToNextLevelAtLeastTen | src/utils/leveling.ts:32-42 | No level from 0 up costs less than 10. |
| Leveling.ExpToNextLevelStep | src/utils/leveling.ts:32-42 | Each level costs at least 5 more than the one before. |
| Leveling.ExpToNextLevelIncreasing | src/utils/leveling.ts:32-42 | The cost grows strictly with the level. |
| Leveling.CumulativeExpGrows | src/utils/leveling.ts:50-58 | Every level reached takes at least 10 more experience, which is why the level loop ends. |
| Leveling.LevelFromExperience | src/utils/leveling.ts:45-62 | The loop returns the level of the total: the largest n whose cumulative experience the total reaches, or 0. |
| Leveling.ExperienceFromLevel | src/utils/leveling.ts:101-118 | The loop returns the sum of the costs of levels 0 to n-1, or 0 for n <= 0. |
| Leveling.LevelUnique | src/utils/leveling.ts:45-62 | Each total has one level. |
| Leveling.LevelIsLargest | src/utils/leveling.ts:45-62 | n is at most the level exactly when the total covers n's cumulative experience (a Galois connection). |
| Leveling.LevelMonotone | src/utils/leveling.ts:45-62 | More experience never gives a lower level. |
| Leveling.LevelBelowTen | src/utils/leveling.ts:45-62 | Less than 10 experience is level 0. |
| Leveling.LevelRoundTrip | src/utils/leveling.ts:45-118 | The level of level n's cumulative experience is n. |
| Leveling.Insert | src/utils/leveling.ts:134 | Insertion adds exactly the one record. |
| Leveling.InsertDescending | src/utils/leveling.ts:134 | Inserting into a descending list keeps it descending. |
| Leveling.SortByExperience | src/utils/leveling.ts:134 | The sort gives a permutation of the records, ordered by descending experience. |
| Leveling.RangeOfDescending | src/utils/leveling.ts:135 | `slice(x, y + 1)` holds positions x to y, fewer when the list is shorter. It is still descending and holds nothing the list does not. |
| Leveling.UsersByExperienceRange | src/utils/leveling.ts:121-145 | It fails with the source's message exactly when x < 0 or y < x. Otherwise it returns at most y-x+1 records: positions x onward of the sorted list, descending, all of them stored records. |
| Leveling.RoleUpdate | src/utils/leveling.ts:225-250 | For each of the four tiers in order, the role is added exactly when the level reaches the tier's threshold, and removed otherwise. |
| Leveling.RoleUpdateHolds | src/utils/leveling.ts:225-250 | A role is added iff the level reaches it and removed iff it does not. |
| Leveling.PrettyExpGain | src/utils/leveling.ts:147-251 | The new experience is the old plus the gain, and both levels follow the level rule. A level-up happens exactly when the new level is higher. Its notice carries the new level, the experience and the next level's cumulative experience. It is sent unless the setting is set and falsy. The role changes are RoleUpdate's. |
| Leveling.LevelUpIffNextReached | src/utils/leveling.ts:153-165 | A gain of zero or more never lowers the level, and levels up exactly when the next level's experience is reached. |
| MongoHelper.KeepAllowed | src/utils/mongohelper.ts:11 | The filter keeps only a-z, 0-9 and '_' and never lengthens the name. |
| MongoHelper.DatabaseName | src/utils/mongohelper.ts:5-20 | The name holds only a-z, 0-9 and '_'. It is at most 63 long and is a prefix of the lowercased, filtered name, equal to it when that is at most 63 long. |
| MongoHelper.ToLowerCaseAppend | src/utils/mongohelper.ts:7 | Lowercasing works character by character. |
| MongoHelper.KeepAllowedAppend | src/utils/mongohelper.ts:11 | The filter works character by character. |
| MongoHelper.AllowedUnchanged | src/utils/mongohelper.ts:7-11 | A name made only of allowed characters passes lowercasing and the filter unchanged. |
| MongoHelper.DatabaseNameIdempotent | src/utils/mongohelper.ts:5-20 | Applying generateDatabaseName twice gives the same result as once. |
| MongoHelper.SanitizedAppend | src/utils/mongohelper.ts:7-11 | Lowercasing then filtering works piece by piece. |
| MongoHelper.SpaceDeleted | src/utils/mongohelper.ts:10-11 | A space is deleted, not turned into '_'. |
| MongoHelper.CapitalKept | src/utils/mongohelper.ts:7-11 | A capital A-Z becomes its lowercase letter and is kept. |
| SkipCommand.Queue.Remove | src/commands/music/skip.ts:23 | Removing a position drops that song and keeps the others in order. |
| SkipCommand.Ceil | src/commands/music/skip.ts:20 | The least whole number not below x. |
| SkipCommand.BelowCeil | src/commands/music/skip.ts:20 | A whole counter is below x exactly when it is below ceil(x), so the loop makes ceil(amount - 1) passes. |
| SkipCommand.Removals | src/commands/music/skip.ts:15-20 | Below 2 there are no passes. Otherwise the number of passes is the least whole number not below amount - 1. |
| SkipCommand.RemovalsWhole | src/commands/music/skip.ts:17-20 | A whole amount k >= 2 makes k - 1 passes. |
| SkipCommand.AfterRemoval | src/commands/music/skip.ts:13-27 | The first min(passes, size) songs are gone and the rest keep their order. |
| SkipCommand.AfterRemovalSmallAmount | src/commands/music/skip.ts:15 | An amount below 2 changes nothing. |
| SkipCommand.RemoveFromQueue | src/commands/music/skip.ts:13-27 | The loop leaves the queue as AfterRemoval says. It removes only at position 0 and only from a non-empty queue. |
| SkipCommand.AcceptedAmountRemovesExactly | src/commands/music/skip.ts:77-81 | An accepted whole amount k >= 2 removes exactly k - 1 songs. |
| SkipCommand.HumanListeners | src/commands/music/skip.ts:89-91 | A member counts exactly when it is neither this bot nor another bot. |
| SkipCommand.VotesNeeded | src/commands/music/skip.ts:94-98 | `Math.ceil(humans / 2)`: the fewest votes that make at least half. |
| SkipCommand.VotesNeededHalf | src/commands/music/skip.ts:94-98 | A strict majority of an odd number of listeners, exactly half of an even number, and never more than there are listeners. |
| SkipCommand.Skip | src/commands/music/skip.ts:75-171 | Too large an amount is rejected with the queue-size message and the queue unchanged. A failed vote changes nothing. Otherwise songs are removed: the player leaves the call when the queue ran empty, and skips otherwise. |
| DebugCommand.FirstReached | src/commands/utility/debug.ts:20-25 | The index found is the first unit millis reaches, and None means it reaches none. |
| DebugCommand.LessThanASecondIff | src/commands/utility/debug.ts:12-29 | The reading is "less than a second" exactly when millis < 1000. |
| DebugCommand.UnitChoice | src/commands/utility/debug.ts:13-23 | From a second on, the first unit (largest first) that fits is used. The amount is floor(millis / size), which is at least 1. |
| DebugCommand.PluralIffNotOne | src/commands/utility/debug.ts:23 | The reading ends in "s" exactly when the amount is not 1. |
| CommandRegistration.ExtensionIsSuffix | src/index.ts:136 | The extension read is the whole name or follows a '.' at its end. |
| CommandRegistration.ExtensionUnique | src/index.ts:136 | A name ending in "." + ext, or equal to ext, with ext free of '.', has ext as its extension. |
| CommandRegistration.ValidFileIff | src/index.ts:135-138 | A file is valid exactly when its name is "js" or "ts" or ends in ".js" or ".ts". |
| CommandRegistration.Find | src/index.ts:282-284 | `find` by name returns the first entry of the name, and None when there is none. The same function serves the option lookup at src/index.ts:307-309. |
| CommandRegistration.AnyOptionDiffers | src/index.ts:305-333 | The option loop reports a mismatch exactly when some local option differs. |
| CommandRegistration.AnyCommandDiffers | src/index.ts:278-334 | The command loop reports a mismatch exactly when some local command differs. |
| CommandRegistration.AreCommandsRegistered | src/index.ts:268-338 | There is a mismatch exactly when the lengths differ or some local command is missing, has another description, another number of options, or an option that is missing or differs in name, description, required flag or type. |
| CommandRegistration.AbsentRequiredIsFalse | src/index.ts:316-324 | For any registered list, an absent required flag and a false one give the same verdict, on the local option and on any registered option. |
| CommandRegistration.OptionsMatchThemselves | src/index.ts:305-333 | A list of uniquely named options matches itself. |
| CommandRegistration.IdenticalListsMatch | src/index.ts:268-338 | An identical registered list, with unique command and option names, is no mismatch. |
| CommandRegistration.DuplicateNamesMismatch | src/index.ts:282-293 | Two commands of the same name that differ in description or in number of options make any list a mismatch with itself. Each command is compared with the first of its name, and one of the two differs from it. |

## Left out

- Lengths are counted in characters. JavaScript counts UTF-16 code units, which differ only for characters outside the Basic Multilingual Plane.
- `String.prototype.normalize` (src/utils/textgen.ts:72 and 84) is not modelled: strings are taken as already normalised.
- TextGen.ChatWithFuncs: the model is a finite script and a failed request ends the exchange (None). Network errors of a real endpoint, and tools that throw, are not modelled.
- TextGen.ChatWithFuncs: tool arguments are the values of `element.function.arguments` in order, given as a sequence. Registry lookups by name do not see the object prototype's keys (`functions["toString"]` is found in JavaScript).
- `verifySafeChat`, `imageAsk`, the tool implementations (web search, scraping, Luau execution) and attachment fetching are network I/O. They are not part of this model. Attachment contents and images are parameters.
- ChatCommand.ChunksContents: the contents of the chunks are stated only for text without fence lines. With fences, the chunks also carry the closing and reopening fence lines that flushes add. HardSplitContents states those for one line.
- ChatCommand.SplitText: requires maxLength > 5. Below that, the hard-split loop does not end once a fence is open. The model does not claim that chunks are at most maxLength long: the closing fence is added after the size check, and the space left can be negative. The fence flag is flipped before the line is placed. So when a fence line does not fit, the chunk flushed before it is closed, or left open, as if the new fence state already held. This can leave a stray fence; the model does what the code does and proves nothing about fences being balanced.
- ChatCommand.BlankChunkEmitted: splitText can return an empty chunk. pushChunk (src/commands/textgen/chat.ts:80-88) pushes `currentChunk.trim()` without a check, so `"  \nabcdefgh"` with a limit of 10 gives `["", "abcdefgh"]`. The model returns that empty chunk too, and the lemma proves the general case. What the chat command then does with an empty chunk (src/commands/textgen/chat.ts:531 sends every chunk as an embed) is outside the model.
- Config.DoneReadsBack: requires that the walk meets no object twice. With shared objects (obj.a = obj), writing "a.a" overwrites obj.a, and reading "a.a" then gives null, in JavaScript as in the model.
- Config.DoneReadsBack: a key "__proto__" is an ordinary entry in the model. In JavaScript, writing it sets an object's prototype instead, and reading it gives the prototype, so get after set fails there (`setNestedKey(obj, "__proto__", "s")` changes nothing).
- Config.SetNestedKey: states the new contents of every object it touches, but not that the objects it creates are distinct from each other, nor the exact set of objects of the result. `getNestedKey`'s `k in value` also sees prototype keys; the model sees only own entries.
- Config.SetNestedKey: a path segment "__proto__" is modelled as an own entry. In JavaScript, `current["__proto__"]` is `Object.prototype`, a truthy object, so a path such as "__proto__.x" walks into it and writes x on the prototype of every object. The key comes from a slash-command argument, so this pollution is reachable. The model does not capture it.
- Config.SetNestedKey: the value is a string, number or boolean, as the parameter's type says. Writing an object is not modelled.
- Leveling.SortByExperience: the sort is an insertion sort on values, stable by construction, but stability is not stated or proved. The in-place `Array.prototype.sort` of the fetched array is not observable afterwards and is modelled as a function on values.
- Leveling.PrettyExpGain: `calculateExpGain` draws random numbers, so the gain is a parameter. `getMemberExperience` and `updateMemberExperience` are database I/O: the current experience is a parameter, and the write is the returned new experience. The setting is the value `getNestedKey` read, with None for null. NaN is not modelled among the falsy values. Sending the DM and the Discord role calls are the returned notice and role operations.
- MongoHelper.LowerChar: `toLowerCase` is exact only on characters whose lowercase form holds a-z, 0-9 or '_'. Every other character is kept as it is, which the filter deletes just as it deletes its lowercase form.
- SkipCommand.Queue.Remove: modelled only at a position that holds a song, the only way removeFromQueue calls it. `player.destroy()` and `player.skip(0)` are the outcomes LeftCall and Skipped.
- SkipCommand.Skip: the reaction-vote collector is event-driven and timed, so the number of votes collected is a parameter. The voice-channel and player checks before the amount check are Discord state and are not modelled.
- `formatBytes` (src/commands/utility/debug.ts:31-36) uses floating-point logarithms and is not modelled.
- CommandRegistration.AreCommandsRegistered: option records are compared as plain records. `option.toJSON()` is taken to give the same fields.
- MongoDB access, the Discord front end (replies, embeds, deferrals), music-node wrappers, command loading and the REST sync are I/O and not part of this model.
