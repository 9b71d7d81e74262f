/**
 The fixture check as the source runs it: a test process whose working
 directory holds the fixture files, and whose `-fix` flag, fixed before any
 test starts, selects update mode. Each entry point is proved to do what the
 function Fixtures.Check (or Fixtures.CheckJson) says.
 */
module Workspace {
  import opened Stdlib
  import opened Fixtures

  class Workspace {
    /** The library routines the check calls. */
    const lib: Lib
    /** The `-fix` flag: update fixtures instead of comparing against them. */
    const update: bool
    /** Does the fixture directory `testdata` exist? */
    var hasDir: bool
    /** The files of the working directory, by path. */
    var files: map<string, Data>

    /** The working directory as the pure model sees it. */
    function State(): Disk
      reads this
    {
      Disk(hasDir, files)
    }

    /** A test process started with the given flag and working directory. */
    constructor (lib: Lib, update: bool, disk: Disk)
      ensures this.lib == lib && this.update == update && State() == disk
    {
      this.lib := lib;
      this.update := update;
      hasDir := disk.hasDir;
      files := disk.files;
    }

    /**
     bytesHelper: in update mode write now to the fixture file; in verify mode
     read the fixture, classify both sides, optionally re-indent them as JSON
     and compare.
     */
    method BytesHelper(name: string, now: Data, tryJsonFormat: bool) returns (outcome: Outcome)
      modifies this
      ensures (outcome, State()) == Check(lib, update, old(State()), name, now, tryJsonFormat)
    {
      var path := FixturePath(name);
      if update {
        if !hasDir {
          hasDir := true;
        }
        files := files[path := now];
        return Pass;
      }

      if path !in files {
        return Fatal(MissingFixture(path));
      }
      var stored := files[path];

      var nowIsBinary, _ := ScanBinary(lib, now);
      var storedIsBinary, _ := ScanBinary(lib, stored);

      if nowIsBinary && storedIsBinary {
        if stored != now {
          return Fail(HexMismatch(stored, now));
        }
        return Pass;
      }

      var current := now;
      if tryJsonFormat {
        var storedOut := lib.indent(stored);
        if storedOut.Some? {
          var nowOut := lib.indent(now);
          if nowOut.Some? {
            stored := storedOut.value;
            current := nowOut.value;
          }
        }
      }

      if stored != current {
        outcome := Fail(DiffMismatch(path, stored, current));
      } else {
        outcome := Pass;
      }
    }

    /** JSON: marshal the value with two-space indentation, then check it without re-indenting. */
    method JSON<V>(name: string, value: V, marshal: V -> Option<Data>) returns (outcome: Outcome)
      modifies this
      ensures (outcome, State()) == CheckJson(lib, update, old(State()), name, value, marshal)
    {
      var encoded := marshal(value);
      if encoded.None? {
        return Fatal(MarshalFailed);
      }
      outcome := BytesHelper(name, encoded.value, JsonTryFormat);
    }

    /** String: check the bytes of a Go string without re-indenting. */
    method String(name: string, now: Data) returns (outcome: Outcome)
      modifies this
      ensures (outcome, State()) == Check(lib, update, old(State()), name, now, StringTryFormat)
    {
      outcome := BytesHelper(name, now, StringTryFormat);
    }

    /** Bytes: check a byte slice, re-indenting both sides as JSON when both allow it. */
    method Bytes(name: string, now: Data) returns (outcome: Outcome)
      modifies this
      ensures (outcome, State()) == Check(lib, update, old(State()), name, now, BytesTryFormat)
    {
      outcome := BytesHelper(name, now, BytesTryFormat);
    }
  }
}
