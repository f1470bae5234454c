# cardano-cli wrapper, modelled in Dafny

The `CardanoCLI` class wraps the `cardano-cli` command-line tool. It keeps a
network (`mainnet` or `testnet` with a magic number), an era and two
directories: one for transaction files and one for signing keys. Through the
shell it can:

- query the unspent outputs (UTXOs) of an address and parse the table the tool
  prints;
- total their lovelace;
- build a transaction into `unsigned_<id>.tx`;
- sign it into `signed_<id>.tx`;
- submit it.

The model has six modules:

- `JsStrings`: JavaScript's `split` and `join` on strings, and
  `replace(/\s+/g, " ")` over the ECMAScript white-space and line-terminator
  characters.
- `JsValues`: `undefined` as `None`, numbers as integers or NaN, unary `+` on
  strings and `${...}` interpolation.
- `UtxoTable`: the line-by-line UTXO parser and the balance fold.
- `Commands`: the network-flag rule, the token lists of the four commands, the
  file-naming convention and the joined command text.
- `ChildProcess`: `execSync` as a `Shell` object. An oracle `respond` decides
  each command's outcome from the commands run before it, and `history`
  records every command run, so "runs no command" is stated as "the history is
  unchanged".
- `Cli`: the class itself, as imperative Dafny. It has the constructor and
  five methods: `GetUtxos`, `GetTotalBalance`, `BuildTransaction`,
  `SignTransaction` and `SubmitTransaction`. `GetUtxos` keeps the source's
  loop, with invariants tying it to the parser. `isTestnet` is the predicate
  `Commands.Config.IsTestnet`, on the settings value that the class's
  `Configuration` function builds from its fields.

Two behaviours of the code are kept as written, although a reader of the
table's column headers (`TxHash`, `TxIx`, `Amount`) or of the method names
might expect otherwise:

- A data line that starts with white space collapses to a leading space, so
  field 0 is empty and the hash, index and amount move one column to the
  right. An indented row such as ` TxHash01 0 1000000 lovelace` therefore gives
  hash `""`, index `TxHash01` and amount 0, not hash `TxHash01`, index `0` and
  amount 1000000 (`UtxoTable.SampleRow`, `UtxoTable.SampleQueryOutput`).
- A failing query is not turned into an error value. The exception escapes
  `getUTXOs` and `getTotalBalance`, which the model shows as `Threw(message)`.

A final row that no newline ends is dropped
(`UtxoTable.SampleQueryOutputUnterminated`).

## Model

| member | source | states |
|---|---|---|
| JsStrings.Split | src/index.ts:47 | `split` on one character yields at least one part, and no part holds the separator |
| JsStrings.SplitCount | src/index.ts:47 | the number of parts is the number of separators plus one |
| JsStrings.JoinSplit | src/index.ts:47 | joining the parts with the separator gives back the original text |
| JsStrings.SplitJoin | src/index.ts:47 | the inverse of `JoinSplit`, completing the model of `split`: splitting the join of separator-free parts gives back the parts |
| JsStrings.JoinAppend | src/index.ts:75-84 | joining two non-empty token lists is joining each and putting the separator between them |
| JsStrings.Collapse | src/index.ts:52 | replacing white-space runs never lengthens the text, empties only the empty text, and gives a leading space exactly when the text starts with white space |
| JsStrings.CollapseOnlyBlanks | src/index.ts:52 | after the replacement the only white space left is the plain space |
| JsStrings.CollapseSingleSpaced | src/index.ts:52 | after the replacement no two spaces are adjacent |
| JsStrings.CollapseKeepsText | src/index.ts:52 | the replacement keeps every non-white-space character, in order |
| JsStrings.CollapseIdempotent | src/index.ts:52 | replacing a second time changes nothing |
| JsStrings.CollapseWord | src/index.ts:52 | a word without white space passes through the replacement unchanged |
| JsStrings.CollapseGap | src/index.ts:52 | a white-space run followed by a non-space becomes exactly one space |
| JsStrings.SplitAfter | src/index.ts:52 | splitting `w sep t` yields `w` and then the parts of `t` |
| JsValues.NatToString | src/index.ts:82 | the decimal text of a natural is non-empty digits with no leading zero, the text of 0 is exactly "0", and its value is that natural |
| JsValues.IntToString | src/index.ts:82 | the `${lovelace}` text is digits with no leading zero, exactly "0" for 0, preceded by `-` exactly when the amount is negative, and reads back through unary `+` as the same amount |
| UtxoTable.ParseUtxosShape | src/index.ts:47-58 | output with n newlines gives max(0, n-2) records, record k from line k+2, so order is kept |
| UtxoTable.ParseTable | src/index.ts:47-60 | a header, a rule and newline-terminated rows parse to one record per row, in order, and text after the last newline is dropped |
| UtxoTable.FieldsHaveNoSpace | src/index.ts:52 | no field of a split line holds white space |
| UtxoTable.RowColumns | src/index.ts:52-57 | a line `hash gap index gap amount ...` gives that hash, that index and the amount read by unary `+` |
| UtxoTable.ShiftedRowColumns | src/index.ts:52-57 | a line that starts with white space gives an empty hash, its first word as index and its second word as amount |
| UtxoTable.LeadingSpaceEmptiesHash | src/index.ts:52-54 | any line that starts with white space gets an empty hash |
| UtxoTable.SampleRow | src/index.ts:52-57 | the row ` TxHash01 0 1000000 lovelace` parses to hash "", index "TxHash01", amount 0 |
| UtxoTable.SampleQueryOutput | src/index.ts:47-60 | that row under two header lines, newline-terminated, yields exactly that one record |
| UtxoTable.SampleQueryOutputUnterminated | src/index.ts:51 | the same row without a final newline yields no record |
| UtxoTable.BalanceIsSum | src/index.ts:63-68 | the fold from 0 is the sum of the amounts, 0 for no records, and NaN once any amount is NaN |
| Commands.NetworkFlagRule | src/index.ts:33-35 | the flag is `--testnet-magic=<magic>` exactly on the test network and `--mainnet` exactly otherwise |
| Commands.JoinContains | src/index.ts:45 | every token appears in the joined command text |
| Commands.QueryCarriesNetworkFlag | src/index.ts:40-45 | the query command has the network flag as its 4th token, no other argument selects a network, and the command text contains the flag |
| Commands.BuildCarriesNetworkFlag | src/index.ts:75-84 | the build command has the network flag as its 4th token, no other argument selects a network, and the command text contains the flag |
| Commands.SignCarriesNetworkFlag | src/index.ts:97-104 | the sign command has the network flag as its 3rd token, no other argument selects a network, and the command text contains the flag |
| Commands.SubmitCarriesNetworkFlag | src/index.ts:118-123 | the submit command has the network flag as its 3rd token, no other argument selects a network, and the command text contains the flag |
| Commands.BuildArgsLayout | src/index.ts:75-84 | the build command has one `--tx-in hash#index` token per input, in input order, followed by the output and the unsigned file named by the id |
| Commands.BuildTxInsOnly | src/index.ts:75-84 | after the program name, the tokens starting with `--tx-in ` are exactly the input tokens |
| Commands.BuildCommandText | src/index.ts:75-84 | the build command text is the head tokens joined, then the joined `--tx-in` tokens when there are inputs, then the output and out-file tokens, one space apart |
| Commands.TxInsTokens | src/index.ts:81 | each input yields one token, which starts with `--tx-in ` and selects no network |
| Commands.FileNamesDistinct | src/index.ts:83-122 | distinct ids name distinct unsigned files and distinct signed files, and no unsigned file is a signed file; so sign reads what build wrote, and submit reads what sign wrote, exactly when the ids match |
| ChildProcess.Shell.ExecSync | src/index.ts:2 | running a command returns the oracle's outcome and appends the command to the history |
| Cli.CardanoCli.constructor | src/index.ts:20-31 | the options set every field; the directories are overwritten even when the option is absent, and `base` stays `cardano-cli` |
| Cli.CardanoCli.GetUtxos | src/index.ts:37-61 | an empty address returns no records and runs nothing; otherwise the query runs once, and the result is the parse of its output or the escaping error |
| Cli.CardanoCli.GetTotalBalance | src/index.ts:63-68 | returns the balance of the records getUTXOs returns, 0 for an empty address, or the escaping error |
| Cli.CardanoCli.BuildTransaction | src/index.ts:70-94 | no inputs returns the "At least one UTXO is required." error and runs nothing; otherwise the build command runs once, and the reply is the file id or the failure message |
| Cli.CardanoCli.SignTransaction | src/index.ts:96-115 | runs the sign command once; the reply is the id as the signed file id, or the failure message |
| Cli.CardanoCli.SubmitTransaction | src/index.ts:117-133 | runs the submit command once; the reply is empty, or the failure message |

## Left out

- The browser guard on line 2: where `window` exists, `execSync` is `true` and every call throws. Only the Node case is modelled.
- `cardano-cli` itself: its output and its failures come from the oracle in `ChildProcess.Shell`, and nothing is assumed about them.
- The generated ObjectId: the build method takes the file id as a parameter. The ids' uniqueness is not modelled; `Commands.FileNamesDistinct` states what distinct ids buy.
- `console.log` of the tool's output, the `stdio: 'pipe'` option, and decoding the output buffer with `toString`: the output is taken as text.
- JavaScript numbers are integers or NaN. Unary `+` on a field reads only the empty text and optionally signed decimal digits. Fractions, exponents, hexadecimal, `Infinity` and similar forms read as NaN. Double-precision rounding of large amounts or sums is not modelled.
- Cli.CardanoCli.BuildTransaction: the amount is an integer, so a fractional `lovelace` argument is not modelled.
- The shell's parsing of the command text: quoting, and words in addresses or key names that the shell would split or interpret. The commands are modelled as the text handed to the shell.
- Characters are Unicode scalar values rather than UTF-16 code units. No modelled behaviour depends on the difference.
- The record type comes from a types file that is not part of this model. Its three fields are taken from how the parser fills them.
- Falsy addresses other than the empty string (`undefined`, `null`): the parameter is typed as a string.
- The unused `TransactionSubmitResponse` type.
