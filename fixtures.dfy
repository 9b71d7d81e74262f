/**
 The golden-file check of package fixtures as pure functions: where a fixture
 lives, when content counts as binary, how the stored and the computed bytes
 are normalised, and what one call does to the fixture directory and which
 outcome it reports. The imperative rendering is in module Workspace.
 */
module Fixtures {
  import opened Stdlib

  const FixtureDir: string := "testdata"
  const FixturePrefix: string := "fixture."

  /** Why a test was stopped (`t.Fatal`, `t.Fatalf`). */
  datatype FatalReason =
    | MissingFixture(path: string)  // verify mode, nothing stored at path
    | MarshalFailed                 // JSON could not encode its value

  /** What a non-fatal failure (`t.Errorf`) reports. */
  datatype Mismatch =
    | HexMismatch(want: Data, got: Data)
      // both sides binary: the raw bytes, printed as hex
    | DiffMismatch(file: string, want: Data, got: Data)
      // otherwise: a unified diff of want against got, labelled with file

  /** The observable result of one call. */
  datatype Outcome = Pass | Fail(mismatch: Mismatch) | Fatal(reason: FatalReason)

  /** The part of the file system the check uses: does `testdata` exist, and the files by path. */
  datatype Disk = Disk(hasDir: bool, files: map<string, Data>)

  /**
   `filepath.Join(fixtureDir, fixturePrefix+name)` for a name without path
   separators or dot segments, on a system whose separator is '/'.
   */
  function FixturePath(name: string): string
  {
    FixtureDir + "/" + FixturePrefix + name
  }

  /** Length of the part of every fixture path that precedes the name. */
  const PathHeadLength: nat := |FixtureDir| + 1 + |FixturePrefix|

  /** The runes that `range string(s)` visits, in order. */
  function Runes(lib: Lib, s: Data): (rs: seq<Rune>)
    ensures |rs| <= |s|
    ensures rs == [] <==> s == []
    decreases |s|
  {
    if s == [] then []
    else
      var (c, width) := lib.decodeRune(s);
      [c] + Runes(lib, s[width..])
  }

  /** A rune that is printable or white space. */
  predicate IsText(lib: Lib, c: Rune)
  {
    lib.isPrint(c) || lib.isSpace(c)
  }

  /** Content is binary when some rune in it is neither printable nor white space. */
  predicate IsBinary(lib: Lib, s: Data)
  {
    var rs := Runes(lib, s);
    exists k :: 0 <= k < |rs| && !IsText(lib, rs[k])
  }

  /**
   The classification loop of bytesHelper: walk the runes of s and stop at the
   first one that is neither printable nor white space. `examined` counts the
   runes the loop looked at (ghost; it only documents where the scan stopped).
   */
  method ScanBinary(lib: Lib, s: Data) returns (binary: bool, ghost examined: nat)
    ensures binary == IsBinary(lib, s)
    ensures examined <= |Runes(lib, s)|
    ensures binary ==> 0 < examined && !IsText(lib, Runes(lib, s)[examined - 1])
    ensures !binary ==> examined == |Runes(lib, s)|
    ensures forall k :: 0 <= k < examined - 1 ==> IsText(lib, Runes(lib, s)[k])
  {
    ghost var rs := Runes(lib, s);
    binary := false;
    examined := 0;
    var i := 0;
    while i < |s|
      invariant 0 <= i <= |s|
      invariant examined <= |rs|
      invariant Suffix(rs, examined) == Runes(lib, s[i..])
      invariant forall k :: 0 <= k < examined ==> IsText(lib, rs[k])
      decreases |s| - i
    {
      var (c, width) := lib.decodeRune(s[i..]);
      RunesStep(lib, s, i, rs, examined);
      if !IsText(lib, c) {
        binary := true;
        examined := examined + 1;
        break;
      }
      assert forall k :: 0 <= k <= examined ==> IsText(lib, rs[k]);
      examined := examined + 1;
      i := i + width;
    }
    if !binary {
      assert Runes(lib, s[i..]) == [];
    }
  }

  ghost function Suffix(rs: seq<Rune>, k: nat): seq<Rune>
    requires k <= |rs|
  {
    rs[k..]
  }

  lemma RunesStep(lib: Lib, s: Data, i: nat, rs: seq<Rune>, k: nat)
    requires i < |s| && k <= |rs| && Suffix(rs, k) == Runes(lib, s[i..])
    ensures var (c, width) := lib.decodeRune(s[i..]);
      && i + width <= |s| && k < |rs| && rs[k] == c
      && Suffix(rs, k + 1) == Runes(lib, s[i + width..])
  {
    var width := lib.decodeRune(s[i..]).1;
    assert s[i..][width..] == s[i + width..];
  }

  /**
   The optional JSON step of bytesHelper: when tryJson is set and both sides
   re-indent, compare the re-indented forms; otherwise compare the bytes as
   they are.
   */
  function Reindent(lib: Lib, stored: Data, now: Data, tryJson: bool): (Data, Data)
  {
    if tryJson && lib.indent(stored).Some? && lib.indent(now).Some? then
      (lib.indent(stored).value, lib.indent(now).value)
    else
      (stored, now)
  }

  /** The verify-mode verdict once the stored content at path has been read. */
  function Verdict(lib: Lib, path: string, stored: Data, now: Data, tryJson: bool): Outcome
  {
    if IsBinary(lib, now) && IsBinary(lib, stored) then
      if stored == now then Pass else Fail(HexMismatch(stored, now))
    else
      var (want, got) := Reindent(lib, stored, now, tryJson);
      if want == got then Pass else Fail(DiffMismatch(path, want, got))
  }

  /** One call of bytesHelper: its outcome and the disk afterwards. */
  function Check(lib: Lib, update: bool, disk: Disk, name: string, now: Data, tryJson: bool)
    : (Outcome, Disk)
  {
    var path := FixturePath(name);
    if update then
      (Pass, Disk(true, disk.files[path := now]))
    else if path !in disk.files then
      (Fatal(MissingFixture(path)), disk)
    else
      (Verdict(lib, path, disk.files[path], now, tryJson), disk)
  }

  /** The three entry points differ only in the tryJSONFormat they pass. */
  const JsonTryFormat := false
  const StringTryFormat := false
  const BytesTryFormat := true

  /** JSON: marshal the value, stop the test if that fails, else check the bytes. */
  function CheckJson<V>(lib: Lib, update: bool, disk: Disk, name: string, value: V,
                        marshal: V -> Option<Data>): (Outcome, Disk)
  {
    match marshal(value)
    case None => (Fatal(MarshalFailed), disk)
    case Some(encoded) => Check(lib, update, disk, name, encoded, JsonTryFormat)
  }
}
