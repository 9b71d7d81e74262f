# Golden-file fixtures, modelled in Dafny

Package `fixtures` lets a Go test compare a computed value against a reference
("fixture") file. A call names a fixture and passes the computed bytes, a
string, or a value to encode as indented JSON. With the `-fix` flag set
(update mode) the call writes the bytes to `testdata/fixture.<name>`. It
returns without comparing. Otherwise (verify mode) it reads that file. A
missing file stops the test. The call then classifies both sides as binary
or text. Two binary sides are compared byte for byte and reported in hex.
Otherwise both sides are optionally re-indented as JSON and compared, and a
mismatch is reported as a unified diff.

The model has four files:

- `stdlib.dfy` (module `Stdlib`): bytes, runes and the library routines the
  check calls but that are not modelled inside. These are UTF-8 decoding,
  `unicode.IsPrint`, `unicode.IsSpace` and `json.Indent`. They are
  function-valued fields of a `Lib` value, so every result holds for any
  behaviour of those routines. The one constraint is that decoding a
  non-empty input consumes between one byte and all of it. Go's `range` over
  a string calls the decoder at each rune start, and `Runes` and `ScanBinary`
  do the same with `Lib.decodeRune`.
- `fixtures.dfy` (module `Fixtures`): the check as pure functions.
  `FixturePath` builds the fixture path. `Runes` and `IsBinary` classify
  content. `Reindent` is the optional JSON step. `Verdict` is the
  verify-mode decision. `Check` gives the whole call: its `Outcome` (`Pass`,
  `Fail(mismatch)` or `Fatal(reason)`) and the `Disk` afterwards. `CheckJson`
  adds the marshalling step of `JSON`. `ScanBinary` is the classification
  loop, proved equal to `IsBinary`.
- `properties.dfy` (module `FixtureProperties`): lemmas about those functions.
- `workspace.dfy` (module `Workspace`): class `Workspace` holds the
  working directory (`hasDir`, `files`) and the `-fix` flag (`update`, a
  constant because it is fixed before any test runs). Its methods
  `BytesHelper`, `JSON`, `String` and `Bytes` follow the source statement by
  statement: the early returns, the two scans, and the in-place reassignment
  of the stored and computed bytes after re-indentation. Each is proved to
  produce exactly the outcome and disk that `Check` or `CheckJson` gives.

The entry points differ only in the `tryJSONFormat` they pass. `JSON` and
`String` pass `false`. `Bytes` passes `true`. So re-indentation only ever
happens for `Bytes`, although the comment above the re-indentation step
(fixtures.go:105-106) names both `String()` and `Bytes()` as the calls it is
meant for. The model follows the code. `StringIsExact` and
`BytesPassesModuloIndent` state the consequences.

## Model

| member | source | states |
|---|---|---|
| FixtureProperties.FixturePathInjective | fixtures.go:60 | two names with the same fixture path are the same name, so distinct fixtures never share a file, for the path as modelled (concatenation, without the cleaning done by `filepath.Join`) |
| FixtureProperties.FixturePathInDirectory | fixtures.go:20-21 | every fixture path is `testdata/fixture.` followed by the name |
| Fixtures.Runes | fixtures.go:83 | decoding yields at most one rune per byte, and no runes exactly for empty content |
| Fixtures.ScanBinary | fixtures.go:82-96 | the loop reports binary exactly when some rune is neither printable nor space; it stops at the first such rune, having seen only text before it, and otherwise sees every rune |
| FixtureProperties.EmptyIsText | fixtures.go:82-96 | empty content is never binary; binary content is non-empty |
| FixtureProperties.ReindentBothOrNeither | fixtures.go:107-116 | with tryJSONFormat set and both sides indenting, both are replaced by their indented forms; if the stored side fails to indent, or the computed side does, both stay as they were; nothing changes without tryJSONFormat |
| FixtureProperties.EqualNeverFails | fixtures.go:98-135 | equal stored and computed bytes always pass |
| FixtureProperties.VerdictKinds | fixtures.go:98-135 | a verify-mode verdict after a successful read is never fatal; it is a hex mismatch exactly when both sides are binary and differ, and any other failure is a diff |
| FixtureProperties.BinaryComparesRaw | fixtures.go:98-103 | with both sides binary, the call passes iff the bytes are equal, and the outcome is the same for every re-indenter and every tryJSONFormat, so no re-indentation takes part |
| FixtureProperties.TextComparesFinal | fixtures.go:107-135 | outside the all-binary case the call passes iff the final, possibly re-indented, bytes are equal, and a failure is a diff of exactly those bytes labelled with the fixture path |
| FixtureProperties.UpdateOverwrites | fixtures.go:63-75 | update mode passes without comparing, the fixture directory exists afterwards, the entry at the fixture path becomes exactly the computed bytes, and every other entry is unchanged |
| FixtureProperties.UpdateIdempotent | fixtures.go:70 | updating twice with the same bytes gives the same disk as updating once |
| FixtureProperties.VerifyReadsOnly | fixtures.go:77-80 | verify mode never changes the disk; a missing fixture is fatal and names the fixture path, and it is the only fatal outcome |
| FixtureProperties.VerifyStoredPasses | fixtures.go:77-135 | verifying bytes equal to the stored entry passes and leaves the disk unchanged |
| FixtureProperties.UpdateThenVerifyPasses | fixtures.go:58-136 | update mode followed by verify mode with the same bytes passes, whichever entry point each call uses |
| FixtureProperties.StringIsExact | fixtures.go:47-50 | with a stored fixture, String and JSON pass in verify mode iff the stored bytes equal the computed ones |
| FixtureProperties.BytesPassesModuloIndent | fixtures.go:53-56 | Bytes passes in verify mode when one side is text and both sides re-indent to the same JSON, even if the raw bytes differ |
| FixtureProperties.JsonRoundTrip | fixtures.go:33-44 | writing a marshallable value with JSON in update mode and checking the same value in verify mode passes |
| FixtureProperties.JsonMarshalFailureIsFatal | fixtures.go:38-41 | a value that cannot be marshalled is fatal and leaves the disk unchanged, in either mode |
| Workspace.Workspace.constructor | fixtures.go:24-29 | a test process starts with the given flag and working directory |
| Workspace.Workspace.BytesHelper | fixtures.go:58-136 | the call's outcome and the working directory afterwards are exactly those given by Check for the flag and the directory before it |
| Workspace.Workspace.JSON | fixtures.go:33-44 | outcome and directory afterwards are those given by CheckJson, which fails fatally when marshalling fails and otherwise checks the encoding without re-indenting |
| Workspace.Workspace.String | fixtures.go:47-50 | outcome and directory afterwards are those given by Check without re-indenting |
| Workspace.Workspace.Bytes | fixtures.go:53-56 | outcome and directory afterwards are those given by Check with re-indenting |

## Left out

- Flag registration in `init` (fixtures.go:28-30): the flag's value is a constructor argument of `Workspace`.
- File permissions (fixtures.go:17-18): the model has no permission bits.
- Real file-system calls: the working directory is a map from path to bytes plus a flag saying whether `testdata` exists. A `Stat` error other than "does not exist", and a read error other than a missing file, are not modelled.
- The `panic` when `Mkdir` or `WriteFile` fails in update mode (fixtures.go:67, 72): environment failures that a map-backed store cannot produce.
- Path cleaning by `filepath.Join` (fixtures.go:60): `FixturePath` concatenates, which is what `Join` gives for a name without separators or `.`/`..` segments on a system whose separator is `/`.
- The internals of `unicode.IsPrint`, `unicode.IsSpace`, UTF-8 decoding and `json.Indent`: they are parameters (`Lib`), constrained only as `stdlib.dfy` states.
- `json.MarshalIndent` (fixtures.go:38): a parameter `marshal` of `JSON`. Its failure becomes `Fatal(MarshalFailed)`, and the error's text is not kept.
- The unified-diff text and its error path (fixtures.go:118-128): a `DiffMismatch` carries the label and the two byte sequences the diff is computed from, not the diff text. The hex text of `HexMismatch` is likewise represented by the two byte sequences.
- The second error check after the diff (fixtures.go:129-131): it is unreachable.
- `testing.T` and `t.Helper`: each call's effect on the test is its `Outcome`.
- JsonRoundTrip: assumes the value encodes to the same bytes in the update run and in the later verify run, because `marshal` is a function. That holds for `encoding/json` on plain values (map keys are sorted) but not necessarily for a type with its own `MarshalJSON`.
