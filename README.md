# Dappos Remix plugin: a Dafny model of the `dapposDapp` widget

The widget lives in the Remix IDE. It listens for the IDE's "compilation finished" event
and flattens the compiler's `file -> contract -> {abi, ...}` result into one
`name -> {abi}` map. It then lets the user pick contracts, a dapp name and a deployed
address, validates the form and builds a "dapp" document. That document is written to
the document store under a per-browser user identifier, and the external DappBuilder
page is opened. Alerts show either a random encouragement or the text of the error that
stopped a submission.

The model has six modules:

- `ContractMaps` (contract_maps.dfy) covers `createContracts`. It is a method with loops
  (`CreateContracts`, with `AssignEach` as the `reduce` callback that runs one file's
  `forEach`, and `ContractMap.Set` as the single assignment inside it), proved equal to the
  specification function `Flattened`. The accumulator is a JavaScript object, so
  `ContractMap` keeps key order: names stay in first-insertion order, and re-assigning a
  key keeps its place. Lemmas prove three things: the key set is the union of all
  contract names; each name holds the ABI of the last file, in iteration order, that
  defines it; and the first key is the first contract visited.
- `Address` (address.dfy) covers the address check `/^(0x)+[0-9a-fA-F]{40}$/i`. It holds a
  matcher that follows the pattern step by step (`MatchesPattern`) and a closed form
  (`IsAddress`), proved equal. The pattern's quirks are kept: the `0x` group may repeat,
  and `0X` is accepted.
- `Submission` (submission.dfy) covers JavaScript `trim` and the ordered validation chain
  `Validate`: empty name, then bad address, then a selected name missing from the map,
  then an empty combined ABI, then `/` in the name. It also covers the combined ABI and
  the document built for a valid form.
- `Identity` (identity.dfy) covers the `uniqueId` local-storage slot and its
  get-or-create.
- `Widget` (widget.dfy) holds the class `DapposDapp`, with the fields the source
  overwrites: `contracts` and the alert state. It also records an ordered trace of
  outward effects: host statuses, the document write and the opening of the builder page.
- `Wrappers` (wrappers.dfy) holds `Option` and `Result`.

DOM reads, `Math.random()` and `uuidv4()` are parameters. Form values and checked names
are passed in. The encouragement index is `pick`. The fresh identifiers are `newUserId`,
`dappId` and `sectionId`.

Three details of the code are easy to misread:

- The code does not reject an empty selection. It rejects an empty *combined ABI*. So
  selected contracts whose ABIs are all empty are rejected too, with the same message.
- A selected name that is not in the map is not a separate validation in the code. It
  is a `TypeError` thrown while the ABIs are combined, which lands in the same warning
  alert. It comes after the address check and before the empty-ABI check.
- The `/` check runs before the "loading" status, so all four checks precede it.

## Model

| member | source | states |
|---|---|---|
| `ContractMaps.ContractMap.Set` | src/index.ts:79 | Property assignment on a JS object: the value is replaced. An existing key keeps its place in key order and a new key goes last. Well-formedness (distinct names, names = keys) is preserved. |
| `ContractMaps.CreateContracts` | src/index.ts:75-83 | The reduction returns exactly `Flattened(result)`, one assignment per (file, contract) in key order, and the result is well formed. |
| `ContractMaps.AssignEach` | src/index.ts:77-80 | The per-file `forEach` extends the accumulator by exactly that file's contracts, in order. |
| `ContractMaps.FoldSnoc` | src/index.ts:79 | Visiting one more contract is one more assignment to the accumulator. |
| `ContractMaps.EntriesOfAppend` | src/index.ts:76-78 | The visiting order is the files in order, each file's contracts in order. |
| `ContractMaps.FoldValid` | src/index.ts:76-82 | The accumulator is always a well-formed object: each name listed once, names = keys. |
| `ContractMaps.FoldKeys` | src/index.ts:76-82 | The key set of the flat map is exactly the set of names visited. |
| `ContractMaps.FoldLastWins` | src/index.ts:76-82 | Each key holds the ABI of the last visited entry with that name (last write wins, not first). |
| `ContractMaps.Flattened` | src/index.ts:75-83 | The flat map `createContracts` returns is a well-formed object whose key set is exactly the set of contract names across all files. |
| `ContractMaps.EntriesOfTwoFiles` | src/index.ts:76-78 | With two files, the visiting order is the first file's contracts, then the second's. |
| `ContractMaps.FoldOverwrite` | src/index.ts:79 | Assigning the same name twice leaves one key, in its first place, holding the second value. |
| `ContractMaps.CollisionSecondFileWins` | src/index.ts:75-83 | When the second of two files defines a name once, the map holds that name with the second file's ABI, whatever else either file holds, including an earlier definition in the first file. |
| `ContractMaps.DistinctFold` | src/index.ts:76-82 | With distinct names, the map has one key per entry, in visiting order, each with its own ABI. |
| `ContractMaps.SingleFileDistinct` | src/index.ts:75-83 | One file with N distinct contract names gives exactly N entries, in file order, each with its original ABI. |
| `ContractMaps.FoldFirstName` | src/index.ts:76-82 | The first key of the map is the first contract visited. |
| `ContractMaps.NamesNonEmptyIff` | src/index.ts:213 | `Object.keys(contracts).length > 0` exactly when the map has a key. |
| `Address.MatchesPattern` | src/index.ts:96 | A string the pattern accepts has at least 42 characters, an even length, and ends in exactly 40 hex digits. |
| `Address.IsAddress` | src/index.ts:96 | A closed-form address has at least 42 characters, an even length, starts with `0x` or `0X`, and ends in exactly 40 hex digits. |
| `Address.MatchesPatternIff` | src/index.ts:96 | The pattern accepts exactly one or more `0x`/`0X` pairs followed by exactly 40 hex digits and nothing else. |
| `Address.SinglePrefixNeedsFortyDigits` | src/index.ts:96 | After a single `0x`, a run of hex digits is accepted if and only if it has exactly 40 digits; 39 or 41 are rejected. |
| `Address.RepeatedPrefixAccepted` | src/index.ts:96 | Quirk kept: `0x0X` + 40 hex digits and `0X` + 40 hex digits are both accepted. |
| `Address.ForeignCharRejected` | src/index.ts:96 | Any character that is neither a hex digit nor `x`/`X` makes the address invalid (e.g. `0xZZ…`). |
| `Submission.TrimStart` | src/index.ts:89 | Only leading whitespace is dropped: the result is a suffix, every dropped character is JavaScript whitespace, and a non-empty result starts with a non-whitespace character. |
| `Submission.TrimEnd` | src/index.ts:89 | Only trailing whitespace is dropped: the result is a prefix, every dropped character is JavaScript whitespace, and a non-empty result ends with a non-whitespace character. |
| `Submission.Trim` | src/index.ts:89 | `name.trim()` is a slice of the name with only whitespace before and after it. A non-empty result starts and ends with a non-whitespace character. |
| `Submission.PaddedSliceOfTrimmed` | src/index.ts:89 | Cutting leading, then trailing whitespace leaves a slice of the original string with only whitespace around it. |
| `Submission.TrimEmptyIff` | src/index.ts:89 | `name.trim() === ""` exactly when every character of the name is JavaScript whitespace. |
| `Submission.CombineAbis` | src/index.ts:104-106 | Combining the ABIs fails (the `TypeError`) exactly when some selected name is not a key. |
| `Submission.CombinedAbiLength` | src/index.ts:104-110 | The combined ABI's length is the sum of the selected ABIs' lengths. It is empty iff every selected ABI is empty. |
| `Submission.ErrorName` | src/index.ts:89-116 | The thrown errors are plain `Error`s, except the missing-contract failure, which is a `TypeError`. |
| `Submission.ErrorMessage` | src/index.ts:89-116 | Every error carries a non-empty message. |
| `Submission.ErrorMessagesDistinct` | src/index.ts:89-116 | Different errors carry different messages, so the alert tells which check failed. |
| `Submission.AlertText` | src/index.ts:191-192 | An error's string form is longer than its message, so it is never empty and the alert takes its warning branch. |
| `Submission.AlertTextEndsWithMessage` | src/index.ts:191-192 | An error's string form is its name, `: `, then its message, so it ends with the message. |
| `Submission.Validate` | src/index.ts:89-116 | The checks run in the order name, address, known names, non-empty ABI, no `/`. Each error holds iff every earlier check passed and its own failed. Success yields the combined ABI, whose length is the positive total. |
| `Submission.EmptyAbisRejected` | src/index.ts:104-110 | A selection, even a non-empty one, whose ABIs are all empty is rejected as "select at least one contract". |
| `Submission.BuildDocument` | src/index.ts:152-167 | The document has the given id and the untrimmed name, and has not connected or saved. It has no images, `windowClick` is false, and it holds the section id. It has one entry per selected name in selection order, each with the raw address, that contract's ABI and its name. |
| `Submission.DocumentCarriesCombinedAbi` | src/index.ts:158-164 | The document entries' ABIs, concatenated in order, are exactly the combined ABI that passed validation. |
| `Identity.GetOrCreateResult` | src/index.ts:124-128 | A stored non-empty id is returned and the slot is kept. Otherwise the new id is returned, and the slot always ends holding the returned id. |
| `Identity.SecondCallSameId` | src/index.ts:124-128 | After one get-or-create with a non-empty new id, a second returns the same id and changes nothing. |
| `Identity.IdentitySlot.GetOrCreate` | src/index.ts:124-128 | Reads the slot and writes it only when missing or empty. The result and new slot are as `GetOrCreateResult` says. |
| `Widget.DapposDapp.constructor` | src/index.ts:38-39 | The widget starts with an empty contract map, no alert and no effects. |
| `Widget.DapposDapp.OnCompilationFinished` | src/index.ts:57-65 | A falsy result changes nothing and emits nothing. Otherwise the map becomes exactly `createContracts(result)`, whose keys are the new names only, and "succeed" is emitted once. |
| `Widget.DapposDapp.ShowAlert` | src/index.ts:196-204 | A falsy argument gives a success alert with `encouragement[pick]`. Any other argument gives a warning alert with its text. Either way the alert block is not hidden. |
| `Wrappers.IsFalsy` | src/index.ts:197 | JavaScript's `!x` on a nullable string, as used by `showAlert` and by the `uniqueId` check at line 125: a value that is not falsy is a non-empty string. |
| `Widget.DapposDapp.ClearAlert` | src/index.ts:206-209 | The alert-clear callback empties the alert state, which hides the alert block. The rest of the widget is left as it was. |
| `Widget.DapposDapp.ResetStatus` | src/index.ts:188-190 | The status-reset callback emits the `none` status. The rest of the widget is left as it was. |
| `Widget.DapposDapp.GenerateInterface` | src/index.ts:85-193 | On a failed check: a warning with that check's text, and no status, identifier creation, write or navigation. On success, in order: "loading", get-or-create of the user id, the write of `BuildDocument(...)` under that user id and dapp id, then the builder page. |
| `Widget.DapposDapp.Reject` | src/index.ts:191-193 | A failed check becomes a warning alert with the error's string form. The contract map, the effect trace and the identifier slot are untouched. |
| `Widget.DapposDapp.Submit` | src/index.ts:118-186 | After the checks pass: "loading", then get-or-create of the user id, the write of `BuildDocument(...)` under that user id and dapp id, then the builder page, in that order. The map and the alert are untouched. |
| `Widget.DapposDapp.HasContracts` | src/index.ts:213 | The form is enabled exactly when the contract map has a key. |
| `Widget.DapposDapp.DefaultDappName` | src/index.ts:252 | With contracts, the default name is the map's first key. Without them it is "". |
| `Widget.DapposDapp.AlertHidden` | src/index.ts:281 | The alert block is hidden exactly when the alert state is the empty object. |
| `Widget.DefaultNameAfterCompilation` | src/index.ts:252 | After a compilation with any contract, the default name is the first contract of the first file that has one. |

## Left out

- Rendering (LitElement templates, markup and CSS) is not modelled. Only the three
  state-derived predicates are kept: `HasContracts`, `DefaultDappName` and `AlertHidden`.
- The plugin transport is not modelled: `createClient`, `onload`, the `solidity.on`
  subscription and `requestUpdate`. The compilation callback is a method the caller
  invokes. `emit` is recorded as an `Emit` entry of the effect trace.
- The document-store write is recorded only as an attempted write, with its user id,
  dapp id and document. Its outcome and the logged error are not modelled (network I/O).
  Navigation follows in every case, as in the source.
- The builder URL and `encodeURIComponent` are not modelled (browser calls).
  `OpenBuilder` records the two identifiers the URL embeds.
- The timers are not modelled: the 10 s status reset, the 5 s alert clear, and the race
  between an old clear timer and a newer alert. Their callback bodies are the methods
  `ResetStatus` and `ClearAlert`, and a caller can replay any firing order.
- `Math.random()` and `uuidv4()` are parameters: `pick`, `newUserId`, `dappId` and
  `sectionId`.
- Of `initialFrontendStructure`, only its section id is kept. The colours, font and empty
  block list are fixed literals.
- src/encouragement.ts is not part of this model. The pool is a constructor parameter
  required to be non-empty. With an empty pool the alert's message would be `undefined`.
- src/firebase.ts is not part of this model.
- The unused imports and field are not modelled: `axios`, `graphql`, `gql` and
  `dapposDapps`.
- Three JavaScript object details are not modelled, because Solidity contract names do
  not trigger them in practice:
  - a contract named `__proto__`, whose assignment sets the object's prototype rather
    than adding a key;
  - the rule that `Object.keys` lists integer-like keys first;
  - the lookup of a selected name that was never assigned but is inherited from
    `Object.prototype` (such as `toString`): it yields no `TypeError`. Once assigned,
    such a name is an ordinary own key, as the model has it.
- The compiler output holds each file's contracts as an object, so one file cannot
  repeat a name. The model's input is a sequence, which may repeat one; a later
  occurrence then overwrites the earlier one, as it would across files.
- ABI entries are opaque strings. A compilation result without a `contracts` member,
  or another malformed shape, is not modelled: the types rule it out.
- Widget.DapposDapp.GenerateInterface: the source awaits the document write
  (src/index.ts:172-177) before opening the builder page (src/index.ts:186), so other
  events can run between them. The model treats the submission as one atomic step:
  "loading", the write and the opening are contiguous in the effect trace.
- Submission.ErrorMessage: the missing-contract message is the V8 engine's wording of
  the `TypeError`. Other JavaScript engines word it differently, so the alert text is
  engine-dependent.
- Exceptions thrown by `localStorage` or by the document-store client themselves are
  not modelled (foreign code).
