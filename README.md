# Wayback downloader, verified model

A Dafny model of the sequential logic in `wayback_downloader.py`, a Python 2
script that asks the Wayback Machine's CDX index for the captures of a URL
and downloads each capture to disk. The model covers:

- **Rows** (`rows.dfy`): the deduplication in `list_rows`. A CDX row is kept
  only the first time its original URL (field 2) is seen. The duplicate count
  is the number of rows dropped.
- **Timestamp** (`timestamp.dfy`, on top of `decimal.dfy`): `parse_timestamp`.
  It cuts six fixed slices out of a `yyyyMMddhhmmss` string and reads each
  one with Python 2's `int()`. The model then applies the range checks of
  `datetime(...)`. A canonical formatter serves as the inverse.
- **Snapshot** (`snapshot.dfy`): the strings `download` builds for a row:
  - the archive URL `http://web.archive.org/web/<timestamp>if_/<original>`;
  - the host, `netloc.split(':')[0]`;
  - the target file path.
- **Summary** (`summary.dfy`): the "Found …:" and "Downloading …..." lines.
  They contain the snapshot count with its plural and the optional
  "(removed N duplicate(s))" note.
- **Orchestrator** (`orchestrator.dfy`): the pending-list bookkeeping of
  `download_all`. This is a method over the pending list and the cursor `i`
  that models one pass, with the outcomes of the downloads as input. A
  second method models the outer `while rows:` loop, bounded by fuel. It
  also records the progress count printed after every result.
- **Cli** (`cli.dfy`): `parseargs`, as methods that pop names and values out
  of the argument list and fill the `params` dict. They are proved equal to
  a fold over the two dicts. Lemmas about the fold state what every parse
  keeps, and what a well-formed command line gives: each recognised name at
  most once, and every option name followed by a token that is not a name.
  For such a line the dict is stated key by key, and the tokens left (the
  candidates for `url`) are exactly those that are neither a name nor an
  option's value.

`sequences.dfy` holds the list facts several modules share: `list.pop`,
`list.index` and subsequences. `wrappers.dfy` holds `Option`.

Where the code and its usual description disagree, the model follows the
code:

- A thirteen-character timestamp is **accepted**, not refused. Slicing past
  the end of a Python string does not fail. `t[12:14]` then holds one digit,
  which becomes the seconds (`Timestamp.ThirteenCharacters`). Only strings of
  twelve characters or fewer fail, because `int("")` raises
  (`Timestamp.ParseTimestamp`).
- The index bookkeeping of one pass is **correct** once the outcomes arrive
  in submission order for the list as it stood when the pass began. Deleting
  a success at `i` and stepping over a failure leaves exactly the failed rows,
  in order (`Orchestrator.DownloadPass`, `Orchestrator.PassStateFailures`).
  Any index shift can only come from `imap` reading the list lazily while it
  is being mutated, which is left out below.

## Model

| member | source | states |
|---|---|---|
| Rows.DedupFrom | wayback_downloader.py:104-105 | the rows kept from a point on have pairwise distinct original URLs: exactly the URLs of the input not already in `unique`; never more rows than the input |
| Rows.Dedup | wayback_downloader.py:104-105 | the rows `list_rows` keeps have pairwise distinct original URLs, and exactly the URLs of the input |
| Rows.ListRows | wayback_downloader.py:103-107 | `list_rows` returns the deduplicated rows and a duplicate count such that count plus kept rows equals the rows received |
| Rows.DedupSubsequence | wayback_downloader.py:105 | the kept rows are the input with some rows deleted, in their original order |
| Rows.DedupKeepsFirst | wayback_downloader.py:104-105 | every kept row is the first row of the input with its original URL |
| Rows.DedupAppend | wayback_downloader.py:105 | deduplicating `a + b` is deduplicating `a`, then `b` with the URLs of `a` already seen |
| Rows.DedupSnoc | wayback_downloader.py:104-105 | one more row is appended to the kept rows exactly when no earlier row has its original URL |
| Rows.DedupDrops | wayback_downloader.py:105-106 | when a URL repeats, or one was already seen, at least one row is dropped |
| Rows.DedupKeepsAll | wayback_downloader.py:105 | when no URL repeats and none was seen, every row is kept |
| Rows.DedupIdentity | wayback_downloader.py:105-106 | nothing is dropped (in content and in length) if and only if the URLs are distinct and none was seen |
| Rows.ListRowsCounts | wayback_downloader.py:103-106 | one row is kept per distinct original URL; duplicates = rows - distinct URLs; duplicates is 0 iff the URLs were already distinct |
| Rows.ListRowsIdempotent | wayback_downloader.py:103-107 | running `list_rows`' deduplication on its own output keeps every row and reports 0 duplicates |
| Timestamp.Slice | wayback_downloader.py:43-48 | Python's `s[lo:hi]`: as long as the part of `lo..hi` inside the string, and the characters are those of the string from `lo` on |
| Timestamp.ValidMoment | wayback_downloader.py:49 | none (a predicate): the range checks `datetime(...)` makes; used by the contracts of `ParseTimestamp` and `FormatTimestamp` |
| Timestamp.ParseTimestamp | wayback_downloader.py:42-49 | a string of at most twelve characters fails; every moment returned passes `datetime`'s range checks |
| Timestamp.FormatTimestamp | wayback_downloader.py:42-49 | the canonical spelling of a valid moment is fourteen digits (the inverse of the parser) |
| Timestamp.FieldOfDigits | wayback_downloader.py:43-48 | `int()` of a non-empty slice of digits is the slice's decimal value |
| Timestamp.ParseFields | wayback_downloader.py:43-49 | once the six `int()` results are known, the result is that moment if it is valid and a failure otherwise |
| Timestamp.ParseDigits | wayback_downloader.py:43-48 | on a string starting with fourteen digits, the fields are the decimal values of slices [0:4], [4:6], [6:8], [8:10], [10:12], [12:14], the rest is ignored, and the result is a failure exactly when that moment is invalid |
| Timestamp.ParseFormat | wayback_downloader.py:42-49 | parsing the canonical spelling of any valid moment gives the moment back |
| Timestamp.FormatDigitMoment | wayback_downloader.py:43-48 | a fourteen-digit string is the canonical spelling of the moment its six slices denote |
| Timestamp.FormatParse | wayback_downloader.py:42-49 | a fourteen-digit timestamp that parses is the canonical spelling of the result |
| Timestamp.ThirteenCharacters | wayback_downloader.py:43-48 | a thirteen-digit string parses, with the single digit of slice [12:14] as the seconds, unless the range checks fail |
| Decimal.ParseInt | wayback_downloader.py:43-48 | none of its own; `ParseIntOfDigits`, `ParseIntPad` and `SpaceAfterSign` state what it reads |
| Decimal.SpaceAfterSign | wayback_downloader.py:43-48 | `int()` skips whitespace after the sign (`"- 12"` is -12, `" + 7 "` is 7) and refuses a sign alone or digits split by a space |
| Decimal.ParseIntOfDigits | wayback_downloader.py:43-48 | `int()` of a digit string is its decimal value, and of the empty string a failure |
| Decimal.ParseIntPad | wayback_downloader.py:43-48 | `int()` of a zero-padded field gives back the number it pads |
| Decimal.PadValue | wayback_downloader.py:43-48 | the value of a padded number is the number when it fits the width |
| Decimal.ValuePad | wayback_downloader.py:43-48 | padding a digit string's value to its own width gives the string back |
| Decimal.NatToString | wayback_downloader.py:111 | the `{}` formatting of a count: a non-empty run of digits without a leading zero unless it is `0`; `NatToStringValue` and `ValueNatToString` make it the inverse of the decimal value |
| Decimal.NatToStringValue | wayback_downloader.py:111 | the digits `format` prints for a count denote that count |
| Decimal.ValueNatToString | wayback_downloader.py:111 | a digit string without superfluous leading zeros is how its value is printed |
| Decimal.NatToStringInjective | wayback_downloader.py:111 | different counts are printed differently |
| Decimal.ParseIntNatToString | wayback_downloader.py:111 | `int(str(n)) == n` |
| Snapshot.UnwrapWrap | wayback_downloader.py:75 | any prefix, a digit timestamp, a marker not starting with a digit and any rest can be read back from their concatenation |
| Snapshot.WrapUnwrap | wayback_downloader.py:75 | whatever reads back is the concatenation of what it reads back as, with a digit timestamp |
| Snapshot.SplitArchiveUrlOfArchiveUrl | wayback_downloader.py:75 | the archive URL of a digit timestamp and an original URL determines both: the original is kept verbatim after `if_/` |
| Snapshot.ArchiveUrlOfSplitArchiveUrl | wayback_downloader.py:75 | every string that reads back as a timestamp and an original URL is the archive URL of the two |
| Snapshot.Host | wayback_downloader.py:73 | the host is the prefix of the network location up to its first colon (or all of it), and contains no colon |
| Snapshot.HostWithoutPort | wayback_downloader.py:73 | a network location without a colon is its own host |
| Snapshot.StripLeadingSlashes | wayback_downloader.py:74 | `lstrip('/')` removes exactly the leading run of slashes and keeps the rest of the path |
| Snapshot.Join | wayback_downloader.py:74 | `os.path.join`: the result always ends with the second part and is at most one character longer than both parts; an absolute second part replaces the first; otherwise the result starts with the first part, and a `/` is added after a non-empty first part that does not already end in one (none after an empty one or one ending in `/`) |
| Snapshot.TargetPath | wayback_downloader.py:74 | the file path ends with the URL path stripped of its leading slashes |
| Snapshot.TargetPathUnderHost | wayback_downloader.py:74 | for a host that is not empty and has no slash the file is `<script dir>/<host>/<path without leading slashes>`: a leading slash in the URL path does not reset the join to the root (`..` segments are kept as they are) |
| Snapshot.ArchiveUrl | wayback_downloader.py:75 | none of its own; `SplitArchiveUrlOfArchiveUrl` and `ArchiveUrlOfSplitArchiveUrl` state that it keeps the timestamp and the original URL recoverable |
| Snapshot.TargetPathInCurrentDirectory | wayback_downloader.py:74 | run from the current directory, `http://<host>/<rel>` is written to `<host>/<rel>` |
| Summary.Plural | wayback_downloader.py:111 | none of its own; see `CountPhraseSingular` |
| Summary.CountPhrase | wayback_downloader.py:111 | none of its own; see `CountPhraseSingular` |
| Summary.DuplicateNote | wayback_downloader.py:111 | none of its own; see `DuplicateNoteInjective` and `OneDuplicate` |
| Summary.SummaryLine | wayback_downloader.py:111 | none of its own; see `SummaryLineNote` and `SummaryLineInjective` |
| Summary.FoundLine | wayback_downloader.py:111 | none of its own; see `DuplicateNoteShown`, `FoundLineInjective` and `DryRunExampleLine` |
| Summary.DownloadingLine | wayback_downloader.py:117 | none of its own; see `DuplicateNoteShown` and `DownloadingLineInjective` |
| Summary.CountPhraseSingular | wayback_downloader.py:111 | the noun is bare exactly when the count is 1, and takes an "s" exactly when it is not |
| Summary.SummaryLineNote | wayback_downloader.py:111 | a summary line contains the duplicates note exactly when the duplicate count is not 0 |
| Summary.DuplicateNoteShown | wayback_downloader.py:117 | both the "Found" and the "Downloading" line show the note exactly when duplicates were removed |
| Summary.DuplicateNoteInjective | wayback_downloader.py:111 | the note determines the duplicate count |
| Summary.SummaryLineInjective | wayback_downloader.py:111 | a summary line determines the snapshot count and the duplicate count |
| Summary.FoundLineInjective | wayback_downloader.py:111 | the "Found" line determines both counts |
| Summary.DownloadingLineInjective | wayback_downloader.py:117 | the "Downloading" line determines both counts |
| Summary.DryRunExampleRows | wayback_downloader.py:103-107 | three rows whose third repeats the first's URL keep the first two and report one duplicate |
| Summary.TwoSnapshots | wayback_downloader.py:111 | a count of two is printed "2 snapshots" |
| Summary.OneDuplicate | wayback_downloader.py:111 | one removed duplicate is printed " (removed 1 duplicate)" |
| Summary.DryRunExampleLine | wayback_downloader.py:111 | for those rows the dry run announces "Found 2 snapshots (removed 1 duplicate):" |
| Orchestrator.FailuresCount | wayback_downloader.py:124-128 | the rows left pending plus the successes make up all the rows of a pass |
| Orchestrator.FailuresSubsequence | wayback_downloader.py:124-127 | the rows left pending keep their order |
| Orchestrator.FailedKept | wayback_downloader.py:126-127 | a row whose download failed stays pending |
| Orchestrator.KeptFailed | wayback_downloader.py:124-125 | a row still pending is one whose download failed |
| Orchestrator.ProgressCounts | wayback_downloader.py:128 | one count per result, each the pass's starting count plus the successes so far |
| Orchestrator.ProgressRising | wayback_downloader.py:128 | the counts of a pass never go down and stay between the starting count and the count at its end |
| Orchestrator.Advance | wayback_downloader.py:124-127 | one result moves the cursor one row closer to the end: the rows from the cursor on are one fewer, and the cursor stays within the list |
| Orchestrator.PassState | wayback_downloader.py:121-127 | after `k` results the cursor plus the successes so far is `k`, and the cursor plus the rows not yet seen is the pending length |
| Orchestrator.PassStep | wayback_downloader.py:123-127 | the cursor sits on the current row; deleting it or stepping over it keeps "failures so far, then rows not yet seen" |
| Orchestrator.PassStateFailures | wayback_downloader.py:121-127 | after `k` results the list is the failed rows among the first `k`, then the rows not yet seen, with the cursor between them |
| Orchestrator.DownloadPass | wayback_downloader.py:121-128 | one pass leaves exactly the failed rows, in order, and prints after each result the count of rows done |
| Orchestrator.AllSucceeded | wayback_downloader.py:124-125 | when every download succeeds nothing stays pending |
| Orchestrator.AllFailed | wayback_downloader.py:126-127 | when every download fails the list is unchanged |
| Orchestrator.FailedInPass | wayback_downloader.py:122-127 | a row stays pending after a pass exactly when it was pending and its download failed |
| Orchestrator.PendingStep | wayback_downloader.py:120-127 | a row is pending after one more pass exactly when it was pending before and failed again |
| Orchestrator.PendingExactly | wayback_downloader.py:120-127 | a row is pending after some passes exactly when it is one of the rows and failed in every pass |
| Orchestrator.AlwaysFailing | wayback_downloader.py:120 | when no download ever succeeds the list never shrinks, so the loop never ends on its own |
| Orchestrator.DownloadAll | wayback_downloader.py:120-128 | the passes stop when nothing is pending or the fuel is spent; the list is the rows still failing; all counts printed rise and stay within the number of rows done |
| Sequences.Pop | wayback_downloader.py:152 | `argv.pop(i)` removes element `i` and closes up the rest |
| Sequences.IndexOf | wayback_downloader.py:151 | `argv.index(name)` is the position of the first occurrence |
| Sequences.PopIsSubsequence | wayback_downloader.py:152 | popping keeps the order of the tokens that stay |
| Cli.TakeOption | wayback_downloader.py:150-153 | an absent name changes nothing; a name that is the last token raises; otherwise the name and the token after it come out and the rest stays in place |
| Cli.TakeByPops | wayback_downloader.py:151-153 | popping the name and then the token that moved into its place is exactly taking the option |
| Cli.OptionNames | wayback_downloader.py:149-154 | none of its own: the inner options loop as a fold over the names; `PopOptionNames` proves the popping loop equal to it |
| Cli.OptionsLoop | wayback_downloader.py:148-154 | none of its own: the options loop as a fold over the `args` dict; `PopOptions` proves the popping loop equal to it |
| Cli.FlagNames | wayback_downloader.py:157-161 | none of its own: the inner flags loop as a fold over the names; `PopFlagNames` proves the popping loop equal to it |
| Cli.FlagsLoop | wayback_downloader.py:156-161 | none of its own: the flags loop as a fold over the `flags` dict; `PopFlags` proves the popping loop equal to it |
| Cli.Removals | wayback_downloader.py:148-161 | none of its own: both loops from the full command line and an empty dict; `RemovalsConsistent`, `RemovalsBare` and `ParseWellFormed` state what it gives |
| Cli.PopOptionNames | wayback_downloader.py:149-154 | popping the names of one option and their values gives the result of the fold for that option |
| Cli.PopOptions | wayback_downloader.py:148-154 | the options loop gives the result of the fold over the `args` dict |
| Cli.PopFlagNames | wayback_downloader.py:157-161 | popping the names of one flag gives the result of the fold for that flag |
| Cli.PopFlags | wayback_downloader.py:156-161 | the flags loop gives the result of the fold over the `flags` dict |
| Cli.Parse | wayback_downloader.py:132-167 | none of its own; `ParseArgs` is proved equal to it and `ParseWellFormed`, `LongParse` and `ParseExample` state what it gives |
| Cli.ParseArgs | wayback_downloader.py:132-167 | an empty command line is a usage error; an option without a value raises; more than one token left is a usage error; one token left becomes `url`; none leaves `url` unset; the result is `Parse` of the command line |
| Cli.OptionFirst | wayback_downloader.py:149-154 | when the list starts with an option's first name and no other of its names follows the value, the inner loop takes the next token as the value and the list goes on two tokens later |
| Cli.OptionPair | wayback_downloader.py:149-154 | an option whose long name and value start the list is taken with that value |
| Cli.LongOptionsLoop | wayback_downloader.py:148-154 | `--matchType M --from F --to T --limit L U`, for values that are not option or flag names, leaves `[U]` and sets the four keys to M, F, T and L |
| Cli.LongParse | wayback_downloader.py:132-167 | that command line parses to the four options and `url` set to U |
| Cli.ParseExample | wayback_downloader.py:132-167 | `--matchType prefix --from 2010 --to 201606 --limit 1000 <url>` parses to matchType "prefix", from "2010", to "201606", limit "1000" and the url |
| Cli.ParseUsageExample | wayback_downloader.py:35 | the usage text's example `--matchType prefix --from 2010 --to 201606 --limit 1000 example.org` parses to matchType "prefix", from "2010", to "201606", limit "1000" and url "example.org" |
| Cli.IndexOfName | wayback_downloader.py:151 | in a well-formed command line (each recognised name at most once, each option name followed by a token that is not a name) `argv.index` finds a name where it stands |
| Cli.TakeTracks | wayback_downloader.py:150-154 | taking a present option out of what is left of a well-formed command line takes the token that followed the name on the original command line, and keeps every other name |
| Cli.OptionNamesTracks | wayback_downloader.py:149-154 | on a well-formed command line the inner options loop never raises and removes no other recognised name |
| Cli.OptionNamesStores | wayback_downloader.py:149-154 | on a well-formed command line the inner options loop stores the token after the last name of its list `[long, short]` that occurs (so the short name's value wins when both occur, whatever their order on the command line), and nothing when none occurs |
| Cli.OptionsLoopTracks | wayback_downloader.py:148-154 | on a well-formed command line the options loop never raises and leaves the flag names in place |
| Cli.OptionsLoopStores | wayback_downloader.py:148-154 | on a well-formed command line the options loop stores for each option what its inner loop chose and no other key |
| Cli.FlagNamesStores | wayback_downloader.py:157-161 | the inner flags loop sets its key to True exactly when one of its names occurs, and removes no other token |
| Cli.FlagsLoopStores | wayback_downloader.py:156-161 | the flags loop sets each flag key to True exactly when one of its names occurs, and no other key |
| Cli.ChosenMentioned | wayback_downloader.py:149-154 | an option has a value chosen exactly when one of its names occurs |
| Cli.ChosenLast | wayback_downloader.py:149-154 | the value chosen is the token after the last name of the option's list `[long, short]` that occurs: line 154 runs for the short name after the long one, so for `-f a --from b` the value is `a` |
| Cli.OptionsStage | wayback_downloader.py:148-154 | on a well-formed command line the options loop goes through, stores every option as promised, sets only option keys and leaves the flag names in place |
| Cli.FlagsStage | wayback_downloader.py:156-161 | the flags loop after it stores every flag as promised and keeps the stored options |
| Cli.ParseWellFormed | wayback_downloader.py:132-167 | for a well-formed command line no option raises; each option key is set exactly when one of its names occurs, to `argv[argv.index(name) + 1]` for the last name of its list `[long, short]` that occurs; each flag key is set, to True, exactly when one of its names occurs |
| Cli.TakeOptionConsistent | wayback_downloader.py:150-154 | taking an option keeps the list a subsequence of the command line and stores a token of the command line under the option's key |
| Cli.OptionNamesConsistent | wayback_downloader.py:149-154 | the inner options loop keeps the list a subsequence and sets only its own key, to a command-line token |
| Cli.OptionsLoopConsistent | wayback_downloader.py:148-154 | the options loop keeps the list a subsequence and sets only option keys, to command-line tokens |
| Cli.FlagNamesConsistent | wayback_downloader.py:157-161 | the inner flags loop keeps the list a subsequence and sets only its own key, to True |
| Cli.FlagsLoopConsistent | wayback_downloader.py:156-161 | the flags loop keeps the list a subsequence and sets only flag keys, to True |
| Cli.RemovalsConsistent | wayback_downloader.py:148-161 | after both loops the tokens left are the command line with some deleted, in order; only the six keys are set, options to command-line tokens and flags to True |
| Cli.OptionsLoopAbsent | wayback_downloader.py:148-154 | with no option name on the command line the options loop changes nothing |
| Cli.FlagsLoopAbsent | wayback_downloader.py:156-161 | with no flag name on the command line the flags loop changes nothing |
| Cli.NoRecognisedNames | wayback_downloader.py:148-161 | a command line without any recognised name comes out of both loops unchanged, with an empty dict |
| Cli.Bare | wayback_downloader.py:148-161 | none of its own: the tokens that are neither a recognised name nor directly after an option name, in order; `RemovalsBare` proves they are what the loops leave |
| Cli.BareAppend | wayback_downloader.py:148-161 | the bare tokens of a concatenation are those of each part, the second part read knowing whether the first ends in an option name |
| Cli.BareWithoutNames | wayback_downloader.py:163-166 | a list without recognised names is all bare |
| Cli.DropPairBare | wayback_downloader.py:151-153 | taking an option name and its value out of a well-formed list keeps its bare tokens |
| Cli.PopFlagBare | wayback_downloader.py:159-160 | popping a flag name out of a well-formed list keeps its bare tokens |
| Cli.PopFlagWellFormed | wayback_downloader.py:159-160 | popping a flag name out of a well-formed list keeps it well formed and removes that name |
| Cli.TakeBare | wayback_downloader.py:150-154 | taking a present option out of a well-formed list keeps it well formed and its bare tokens, removes that name, and adds no token |
| Cli.OptionNamesBare | wayback_downloader.py:149-154 | on a well-formed list the inner options loop never raises, keeps the bare tokens, removes all its names and adds no token |
| Cli.OptionsLoopBare | wayback_downloader.py:148-154 | on a well-formed list the options loop never raises, keeps the bare tokens and removes every option name |
| Cli.FlagNamesBare | wayback_downloader.py:157-161 | on a well-formed list the inner flags loop keeps the bare tokens, removes all its names and adds no token |
| Cli.FlagsLoopBare | wayback_downloader.py:156-161 | on a well-formed list the flags loop keeps the bare tokens and removes every flag name |
| Cli.RemovalsBare | wayback_downloader.py:148-161 | on a well-formed command line both loops go through and leave exactly its bare tokens |
| Cli.ParseUrl | wayback_downloader.py:163-167 | on a well-formed non-empty command line: one bare token becomes `url`, more than one is a usage error, none leaves `url` unset |
| Cli.BareExamples | wayback_downloader.py:148-161 | for `-d <url>` and `<url> --from <value>` the only bare token is the url |

## Left out

- HTTP: `urllib2.urlopen` for the CDX query and for each capture (lines 79, 93). The rows and the outcome of every download are inputs; the `served` set of (pass, row) pairs stands for the server's answers.
- Orchestrator.PassOutcomes: a download's outcome depends only on the pass and the row's value, so two equal rows in one pass get the same outcome, and `Orchestrator.PendingExactly` relies on this. It matches the source because `download_all` receives the output of `list_rows`, whose original URLs are distinct (`Rows.Dedup`). Two identical rows could otherwise fare differently on a real server.
- The CDX reply being split into lines and fields (line 95): rows arrive as seven-field records. A line with fewer than three fields makes `row[2]` raise an IndexError in `list_rows` (line 105); one with another number than seven makes the tuple unpacking of lines 71 and 123 raise. Neither is modelled.
- The `NameError` of `list_rows` when the reply is not 200, and its `False` on transport errors (lines 94-99): deduplication is modelled apart from fetching.
- Filesystem work in `write` (lines 51-68): `isdir`, `makedirs`, the file write and `os.utime`; the `index.html` choice depends on what is on disk.
- `urlparse`, `urllib.unquote` and `os.path.dirname(sys.argv[0])` (lines 72, 74): their results (network location, path, script directory) are inputs. `os.path.join` is modelled for POSIX.
- `time.mktime` and `strftime` (lines 66, 113): local-time conversion and date formatting belong to the C library.
- `multiprocessing.Pool` and `imap` (lines 119, 122): a pass is sequential and receives its outcomes in submission order; `imap` reading the list lazily while the loop deletes from it is not modelled.
- Orchestrator.DownloadAll: runs at most `fuel` passes, because the source's `while rows:` has no bound and retries forever when a row always fails (`Orchestrator.AlwaysFailing`).
- The percentage in the progress line (line 129): floating point; the count it is computed from is modelled.
- `main` (lines 169-180): usage printing, `sys.exit` and the dispatch to `dry_run` or `download_all`.
- Cli.ParseArgs: iterates the `args` and `flags` dicts in the order they are written, because Python 2 leaves dict order unspecified (lines 148, 156); the order only matters when an option's value is itself a recognised name.
- Timestamp.ParseTimestamp: `int()` is modelled on a byte string as Python 2 reads one: ASCII whitespace, an optional sign, whitespace again, ASCII digits and whitespace (`Decimal.SpaceAfterSign`). Python 2's `long` promotion is not modelled, since integers are unbounded here.
- Downloads that raise: `download` only catches `URLError` and `HTTPError` (lines 82-85). An `IOError` from `open` (line 64, for instance when the path is a directory name that `isdir` did not see, as for `http://example.org/` whose path strips to nothing), the `ValueError` of `parse_timestamp` inside `write` (line 66), or a socket error while reading escape `download`. `imap` re-raises them in the parent at line 122, which ends `download_all` in the middle of a pass. The model gives every download a boolean outcome.
- Path sanitising: `..` segments of the URL path, and a network location that is itself `..`, are joined as they are (line 74), so a capture can be written outside the host's directory; `Snapshot.TargetPathUnderHost` states the join and keeps them.
