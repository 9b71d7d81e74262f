/**
 What the fixture check guarantees, proved about the functions of module
 Fixtures: where fixtures live, how content is classified and compared, and
 the protocol of update mode followed by verify mode.
 */
module FixtureProperties {
  import opened Stdlib
  import opened Fixtures

  // ---------------------------------------------------------------------------
  // Fixture paths

  /**
   Distinct fixture names never share a file. This is about the path as
   modelled, a concatenation; the cleaning done by filepath.Join (which maps
   "a" and "a/" to the same file) is outside the model.
   */
  lemma FixturePathInjective(a: string, b: string)
    ensures FixturePath(a) == FixturePath(b) ==> a == b
  {
    FixturePathInDirectory(a);
    FixturePathInDirectory(b);
  }

  /** Every fixture lives in the fixture directory, under the fixture prefix. */
  lemma FixturePathInDirectory(name: string)
    ensures FixturePath(name)[..PathHeadLength] == "testdata/fixture."
    ensures FixturePath(name)[PathHeadLength..] == name
  {
  }

  // ---------------------------------------------------------------------------
  // Binary classification

  /** Empty content is text, and binary content holds at least one byte. */
  lemma EmptyIsText(lib: Lib, s: Data)
    ensures s == [] ==> !IsBinary(lib, s)
    ensures IsBinary(lib, s) ==> |s| > 0
  {
  }

  /** Decoding depends on the decoder alone, not on the rest of the library. */
  lemma {:induction false} RunesDependOnDecoderOnly(lib: Lib, other: Lib, s: Data)
    requires other.decodeRune == lib.decodeRune
    ensures Runes(other, s) == Runes(lib, s)
    decreases |s|
  {
    if s != [] {
      RunesDependOnDecoderOnly(lib, other, s[lib.decodeRune(s).1..]);
    }
  }

  /** Classification ignores the JSON re-indenter. */
  lemma BinaryIgnoresIndent(lib: Lib, indent: Data -> Option<Data>, s: Data)
    ensures IsBinary(lib.(indent := indent), s) == IsBinary(lib, s)
  {
    RunesDependOnDecoderOnly(lib, lib.(indent := indent), s);
  }

  // ---------------------------------------------------------------------------
  // JSON re-indentation

  /**
   Re-indentation replaces both sides or neither: with tryJson set and both
   sides indenting, both are replaced; if either side fails to indent, both
   stay as they were; and nothing changes without tryJson.
   */
  lemma ReindentBothOrNeither(lib: Lib, stored: Data, now: Data, tryJson: bool)
    ensures var (want, got) := Reindent(lib, stored, now, tryJson);
      || (want, got) == (stored, now)
      || (tryJson && lib.indent(stored) == Some(want) && lib.indent(now) == Some(got))
    ensures lib.indent(stored).None? ==> Reindent(lib, stored, now, tryJson) == (stored, now)
    ensures lib.indent(now).None? ==> Reindent(lib, stored, now, tryJson) == (stored, now)
    ensures !tryJson ==> Reindent(lib, stored, now, tryJson) == (stored, now)
    ensures tryJson && lib.indent(stored).Some? && lib.indent(now).Some?
        ==> Reindent(lib, stored, now, tryJson) == (lib.indent(stored).value, lib.indent(now).value)
  {
  }

  // ---------------------------------------------------------------------------
  // The verdict

  /** Equal inputs never fail, whatever the classification and re-indentation. */
  lemma EqualNeverFails(lib: Lib, path: string, s: Data, tryJson: bool)
    ensures Verdict(lib, path, s, s, tryJson) == Pass
  {
  }

  /** A verdict is never fatal; a hex report exactly when both sides are binary and differ. */
  lemma VerdictKinds(lib: Lib, path: string, stored: Data, now: Data, tryJson: bool)
    ensures !Verdict(lib, path, stored, now, tryJson).Fatal?
    ensures Verdict(lib, path, stored, now, tryJson) == Fail(HexMismatch(stored, now))
        <==> IsBinary(lib, stored) && IsBinary(lib, now) && stored != now
    ensures Verdict(lib, path, stored, now, tryJson).Fail?
        ==> Verdict(lib, path, stored, now, tryJson).mismatch.HexMismatch?
            == (IsBinary(lib, stored) && IsBinary(lib, now))
  {
  }

  /**
   When both sides are binary the raw bytes decide, and no re-indentation is
   attempted: the outcome is the same for any re-indenter and either setting of
   tryJson.
   */
  lemma BinaryComparesRaw(lib: Lib, indent: Data -> Option<Data>, path: string,
                          stored: Data, now: Data, tryJson: bool, tryJson': bool)
    requires IsBinary(lib, stored) && IsBinary(lib, now)
    ensures Verdict(lib, path, stored, now, tryJson).Pass? <==> stored == now
    ensures Verdict(lib, path, stored, now, tryJson)
         == Verdict(lib.(indent := indent), path, stored, now, tryJson')
  {
    BinaryIgnoresIndent(lib, indent, stored);
    BinaryIgnoresIndent(lib, indent, now);
  }

  /**
   Outside the all-binary case the (possibly re-indented) final bytes decide,
   and a failure carries a diff of exactly those bytes labelled with the path.
   */
  lemma TextComparesFinal(lib: Lib, path: string, stored: Data, now: Data, tryJson: bool)
    requires !(IsBinary(lib, stored) && IsBinary(lib, now))
    ensures var (want, got) := Reindent(lib, stored, now, tryJson);
      && (Verdict(lib, path, stored, now, tryJson).Pass? <==> want == got)
      && (want != got ==> Verdict(lib, path, stored, now, tryJson) == Fail(DiffMismatch(path, want, got)))
  {
  }

  // ---------------------------------------------------------------------------
  // Update mode and verify mode

  /**
   Update mode never compares and never fails: the entry at the fixture path
   becomes exactly now, the fixture directory exists afterwards, and every other
   entry is untouched.
   */
  lemma UpdateOverwrites(lib: Lib, disk: Disk, name: string, now: Data, tryJson: bool)
    ensures var (outcome, after) := Check(lib, true, disk, name, now, tryJson);
      && outcome == Pass
      && after.hasDir
      && FixturePath(name) in after.files && after.files[FixturePath(name)] == now
      && after.files.Keys == disk.files.Keys + {FixturePath(name)}
      && after.files - {FixturePath(name)} == disk.files - {FixturePath(name)}
  {
  }

  /** Updating twice with the same bytes leaves the same disk as updating once. */
  lemma UpdateIdempotent(lib: Lib, disk: Disk, name: string, now: Data, tryJson: bool, tryJson': bool)
    ensures var once := Check(lib, true, disk, name, now, tryJson).1;
      Check(lib, true, once, name, now, tryJson') == (Pass, once)
  {
    var once := Check(lib, true, disk, name, now, tryJson).1;
    assert once.files[FixturePath(name) := now] == once.files;
  }

  /** Verify mode never writes; a missing fixture stops the test, naming its path. */
  lemma VerifyReadsOnly(lib: Lib, disk: Disk, name: string, now: Data, tryJson: bool)
    ensures Check(lib, false, disk, name, now, tryJson).1 == disk
    ensures FixturePath(name) !in disk.files
        ==> Check(lib, false, disk, name, now, tryJson).0 == Fatal(MissingFixture(FixturePath(name)))
    ensures Check(lib, false, disk, name, now, tryJson).0.Fatal? ==> FixturePath(name) !in disk.files
  {
  }

  /** Verifying the bytes that are stored always passes. */
  lemma VerifyStoredPasses(lib: Lib, disk: Disk, name: string, now: Data, tryJson: bool)
    requires FixturePath(name) in disk.files && disk.files[FixturePath(name)] == now
    ensures Check(lib, false, disk, name, now, tryJson) == (Pass, disk)
  {
    EqualNeverFails(lib, FixturePath(name), now, tryJson);
  }

  /** Round trip: update mode then verify mode with the same bytes passes, whichever entry points. */
  lemma UpdateThenVerifyPasses(lib: Lib, disk: Disk, name: string, now: Data, tryJson: bool, tryJson': bool)
    ensures var written := Check(lib, true, disk, name, now, tryJson).1;
      Check(lib, false, written, name, now, tryJson') == (Pass, written)
  {
    var written := Check(lib, true, disk, name, now, tryJson).1;
    VerifyStoredPasses(lib, written, name, now, tryJson');
  }

  // ---------------------------------------------------------------------------
  // The entry points

  /**
   String (and JSON, which passes the same flag) compare bytes exactly: with a
   stored fixture, verify mode passes if and only if the bytes are equal.
   */
  lemma StringIsExact(lib: Lib, disk: Disk, name: string, now: Data)
    requires FixturePath(name) in disk.files
    ensures Check(lib, false, disk, name, now, StringTryFormat).0.Pass?
        <==> disk.files[FixturePath(name)] == now
    ensures Check(lib, false, disk, name, now, JsonTryFormat).0.Pass?
        <==> disk.files[FixturePath(name)] == now
  {
  }

  /**
   Bytes compares JSON modulo layout: when one side is text and both sides
   re-indent to the same bytes, verify mode passes even if the raw bytes differ.
   */
  lemma BytesPassesModuloIndent(lib: Lib, disk: Disk, name: string, now: Data)
    requires FixturePath(name) in disk.files
    requires var stored := disk.files[FixturePath(name)];
      && !(IsBinary(lib, stored) && IsBinary(lib, now))
      && lib.indent(stored).Some? && lib.indent(stored) == lib.indent(now)
    ensures Check(lib, false, disk, name, now, BytesTryFormat) == (Pass, disk)
  {
  }

  /** JSON round trip: writing a value in update mode and then checking the same value passes. */
  lemma JsonRoundTrip<V>(lib: Lib, disk: Disk, name: string, value: V, marshal: V -> Option<Data>)
    requires marshal(value).Some?
    ensures var written := CheckJson(lib, true, disk, name, value, marshal).1;
      CheckJson(lib, false, written, name, value, marshal) == (Pass, written)
  {
    UpdateThenVerifyPasses(lib, disk, name, marshal(value).value, JsonTryFormat, JsonTryFormat);
  }

  /** A value that cannot be marshalled stops the test before the disk is touched. */
  lemma JsonMarshalFailureIsFatal<V>(lib: Lib, update: bool, disk: Disk, name: string, value: V,
                                     marshal: V -> Option<Data>)
    requires marshal(value).None?
    ensures CheckJson(lib, update, disk, name, value, marshal) == (Fatal(MarshalFailed), disk)
  {
  }
}
