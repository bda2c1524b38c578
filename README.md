# JSON-Sample: typed decoding of a GitHub repository document

This project models `Sources/main.swift`. The script fetches the GitHub API
document of one repository, parses it into a generic JSON value, decodes it
into a `Github.Repo` record and prints one summary line. The model covers:

- the three typed decoders the script defines: `URL.init(json:)`,
  `Date.init(json:)` and `Github.Repo.init(json:)`;
- the exit-status decision on a missing body;
- the `do`/`catch` block that turns the decoded record, or the first error,
  into the printed line.

Everything is pure: the source's decoders are expressions over an immutable
JSON value, so the model uses datatypes, functions and lemmas. It has six
modules:

- `Wrappers`: Option and Result.
- `Json`: the generic JSON value and member lookup.
- `Foundation`: `Url`, `Date`, and the Foundation code the decoders call,
  passed in as a `Platform` value. It also holds the `Int64`-to-`TimeInterval`
  conversion, written out as binary64 round-to-nearest-even.
- `Decoding`: the error taxonomy, the library decoders for String, Bool and
  Int, `get(key)`, and the URL and Date decoders.
- `Github`: the record and its decoder, plus a schema-driven reference
  decoder. The reference decoder reads the nine keys from a table in
  declaration order. The record decoder is proved equal to it, and both
  first-failure propagation and the round trip are stated through it.
- `Program`: the script after the fetch, that is, the exit decision and the
  printed line.

`JSON.Parser.parse` and the JSON library's `get` are not part of this model.
Their behaviour is stated as modelling decisions:

- An integer is an `Int64`.
- An object is an ordered sequence of members.
- `get(key)` reads the first member with exactly that key. When the value is
  not an object, or the key is missing, it fails with `KeyNotFound(key)`.
  Otherwise it returns the target type's decoder result unchanged.
- The String, Bool and Int decoders accept only their own tag. On any other
  tag they fail with `BadValue` of the value.

Two behaviours of the program worth stating outright:

- A body that comes with a transport error still counts as a success. Line
  100 reads only the data slot, and `Program.RunIgnoresResponseAndError`
  proves that the response and error slots never change the outcome.
- The timestamp pattern is configured on a `DateFormatter` (lines 54-57).
  So a string decodes to a date exactly when that formatter returns one.

## Model

| member | source | states |
|---|---|---|
| Json.Lookup | Sources/main.swift:86-94 | member lookup by key. It is absent exactly when no member has the key; otherwise it is the value of the first member carrying that key |
| Decoding.DecodeString | Sources/main.swift:86-88 | a String target succeeds exactly on a JSON string and returns its text. Any other tag fails with BadValue of the value |
| Decoding.DecodeBool | Sources/main.swift:90 | a Bool target succeeds exactly on a JSON boolean and returns it. Any other tag fails with BadValue of the value |
| Decoding.DecodeInt | Sources/main.swift:91 | an Int target succeeds exactly on a JSON integer and returns it. Any other tag fails with BadValue of the value |
| Decoding.Get | Sources/main.swift:86-94 | `get(key)` fails with KeyNotFound(key) when the value is not an object holding the key. Otherwise it is the target decoder applied to the first member with that key |
| Decoding.DecodeUrl | Sources/main.swift:31-40 | any non-string gives BadValue. A string succeeds exactly when `URL(string:)` accepts it, and then yields that URL; a rejected string gives BadValue of the value |
| Decoding.DecodeDate | Sources/main.swift:45-65 | success exactly for a double, an integer, or a string the UTC formatter accepts. A double goes through `Date(timeIntervalSince1970:)`. An integer yields a whole number of seconds that lies on the binary64 grid at the integer's magnitude (a multiple of the spacing) and within half a spacing of the integer. A string yields the formatter's date. Every other case gives BadValue of the value |
| Decoding.DecodeDateIntegerExact | Sources/main.swift:50-51 | an integer of magnitude at most 2^53 decodes to exactly that many seconds since 1970 |
| Decoding.DecodeDateZeroIsEpoch | Sources/main.swift:50-51 | the integer 0 decodes to the epoch |
| Foundation.ToBinary64 | Sources/main.swift:51 | `TimeInterval(i)`, the binary64 value nearest to `i` with ties to even. It has no contract of its own; its properties are `Foundation.ToBinary64Nearest`, `Foundation.ToBinary64OnGrid`, `Foundation.ToBinary64Exact`, `Foundation.ToBinary64Odd` and `Foundation.ToBinary64TiesToEven` |
| Foundation.SpacingIsUlp | Sources/main.swift:51 | the spacing used for an integer's magnitude is a power of two at which the magnitude needs 53 significant bits (the binary64 unit in the last place) |
| Foundation.ToBinary64Nearest | Sources/main.swift:51 | `TimeInterval(i)` is a multiple of the spacing and at most half a spacing from `i`, so no binary64 value is nearer |
| Foundation.ToBinary64Exact | Sources/main.swift:51 | every integer of magnitude at most 2^53 converts to itself |
| Foundation.ToBinary64Odd | Sources/main.swift:51 | the conversion commutes with negation |
| Foundation.ToBinary64OnGrid | Sources/main.swift:51 | `TimeInterval(i)` is divisible by the binary64 spacing at the magnitude of `i` |
| Foundation.ToBinary64TiesToEven | Sources/main.swift:51 | when `i` lies exactly halfway between two neighbouring binary64 values, the one chosen is an even number of spacings |
| Foundation.ToBinary64TieToEven | Sources/main.swift:51 | a tie (2^53 + 1) rounds to the even neighbour 2^53 |
| Github.DecodeRepo | Sources/main.swift:85-95 | `Github.Repo.init(json:)`: nine `get` calls in declaration order, the first error ending the decode. It has no contract of its own; its properties are `Github.DecodeRepoSucceedsIff`, `Github.DecodeRepoFailsAtFirst`, `Github.DecodeRepoFirstFailure`, `Github.DecodeRepoIsSchemaDecode` and `Github.RepoRoundTrip` |
| Github.DecodeAs | Sources/main.swift:86-94 | decoding one field as its declared Swift type fails only with BadValue of the value being decoded |
| Github.DecodeEntry | Sources/main.swift:86-94 | reading one declared key fails with KeyNotFound of that key when it is absent. Otherwise the result is that of the first member with that key, and a failure is BadValue of that member's value |
| Github.EntriesAreGets | Sources/main.swift:86-94 | each schema entry succeeds, fails and yields values exactly like the source's typed `get(key)` of the same type |
| Github.DecodeEntriesSpec | Sources/main.swift:85-95 | reading a sequence of keys succeeds exactly when every key decodes, with the decoded values in order. Otherwise it fails with the error of the first key that fails |
| Github.RepoSchemaEntries | Sources/main.swift:86-94 | the nine keys and their target types, in declaration order |
| Github.RepoKeysDistinct | Sources/main.swift:86-94 | the nine keys are pairwise different |
| Github.DecodeRepoSucceedsIff | Sources/main.swift:85-95 | a record decodes exactly when all nine `get` calls succeed. Then every field equals the value its own key decodes to |
| Github.DecodeRepoFailsAtFirst | Sources/main.swift:86-94 | when the first failing `get` is the one for key k, the record fails with that call's error, for each of the nine keys |
| Github.SchemaFailureAt | Sources/main.swift:86-94 | when entry k is the first failing entry, the record fails with that entry's error |
| Github.SchemaSuccess | Sources/main.swift:85-95 | when all nine entries decode, so does the record |
| Github.DecodeRepoIsSchemaDecode | Sources/main.swift:85-95 | the record decoder and the schema decoder agree: same success, the record's fields are the schema's values, same error |
| Github.DecodedFieldsAreRecord | Sources/main.swift:85-95 | when every entry decodes to the matching one of nine given values, the record's fields are those values |
| Github.DecodeRepoFromEntries | Sources/main.swift:85-95 | when every key decodes to the matching one of nine given values, the record decodes and its fields are those values |
| Github.DecodeRepoFirstFailure | Sources/main.swift:86-94 | the record fails with error e exactly when some key, read in declaration order, is the first to fail and fails with e |
| Github.DecodeRepoMissingKey | Sources/main.swift:86-94 | when key k is absent and every earlier key decodes, the record fails with KeyNotFound naming key k |
| Github.SchemaObject | Sources/main.swift:86-94 | the object built from nine values holds each value under its declared key, in declaration order |
| Github.SchemaObjectEntries | Sources/main.swift:86-94 | in such an object, each key reads exactly the value stored under it |
| Github.FieldsInjective | Sources/main.swift:70-80 | a record is determined by its nine fields |
| Github.RepoJsonEntry | Sources/main.swift:86-94 | each key of the object written for a record reads back the matching field |
| Github.RepoRoundTrip | Sources/main.swift:70-95 | writing a record as JSON (a URL text that parses to its URL, dates as whole seconds within 2^53) and decoding it gives back the same record |
| Program.Respond | Sources/main.swift:101-110 | a body prints the summary exactly when it parses and decodes a record, and the summary carries the record's full name and stars. A parse failure prints that parse error, and a decode failure prints that decode error |
| Program.Run | Sources/main.swift:99-110 | no body gives exit status 1 and no printed line. A body gives status 0 and exactly the line the `do`/`catch` block produces |
| Program.RunIgnoresResponseAndError | Sources/main.swift:99-100 | the response and error slots never change the outcome; only the body decides |
| Program.SampleValueDecodes | Sources/main.swift:86-94 | every value of the sample document decodes, as its key's type, to the matching sample field |
| Program.SampleEntry | Sources/main.swift:86-94 | every key of the sample document decodes to the matching sample field |
| Program.SampleDecodes | Sources/main.swift:104 | the sample repository document decodes to a record with full name "vdka/json" and 42 stars |
| Program.SampleRun | Sources/main.swift:98-110 | on the sample body, the script exits with status 0 and prints the summary for "vdka/json" with 42 stars |

## Left out

- `URLSession.syncDataTask(with:)` (lines 6-27) is not modelled: it is a semaphore around a network callback. The model starts from the triple of optional values it returns (`Program.Fetched`).
- The request to the fixed endpoint (line 98) and the network are left out. So is `exit(1)` ending the process; it becomes a `Termination` value.
- `JSON.Parser.parse` is not part of this model. It is a parameter (`parse`) that returns a JSON value or a parse error.
- The JSON library's `get` and its library decoders are not part of this model. Their behaviour is stated as the assumptions above, with `Json.Lookup` and `Decoding.Get` as their models.
- `URL(string:)` and the configured `DateFormatter` are not modelled; they are parameters of the model (`Platform.parseUrl`, `Platform.parseTimestamp`). Which strings they accept, including the sample timestamps, is therefore assumed rather than proved.
- `Date(timeIntervalSince1970:)` on a Double is a parameter (`Platform.dateFromDouble`), so floating-point arithmetic is not modelled. A `Date` is a real number of seconds, so NaN and infinite dates cannot be represented.
- Decoding.DecodeDate: for an integer the contract states that the result is a whole number on the binary64 grid and no farther than half a spacing from the integer. Which of two equally near values is chosen is stated about `Foundation.ToBinary64` (`Foundation.ToBinary64TiesToEven`), not in this contract. Foundation's internal storage relative to its 2001 reference date is not modelled.
- Swift compares `String` keys by canonical equivalence. The model compares exact character sequences.
- `print` and string interpolation (lines 106 and 109) are left out. The printed line is the `Program.Line` datatype, which holds the values the text is built from.
