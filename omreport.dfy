/**
 * The omreport client's trust gate: an OMReport pins the path of the
 * omcliproxy binary and the SHA-256 of its bytes when it is built, and in
 * enhanced security mode re-checks that digest before every command it
 * builds. Also the physical-disk attribute predicates.
 *
 * The filesystem is a parameter (a snapshot per call), and so is the
 * digest function, which the model treats as an arbitrary function of the
 * bytes.
 */
module Omreport {
  import opened Wrappers
  import opened Os
  import opened Strconv
  import opened Structs

  const DefaultOMCLIProxyDir: Path := "/opt/dell/srvadmin/sbin"
  const DefaultOMCLIProxyBinaryName: Path := "omcliproxy"
  const DefaultOMReportCommandName: string := "omreport"

  /** filepath.Join(DefaultOMCLIProxyDir, DefaultOMCLIProxyBinaryName). */
  const DefaultOMCLIProxyPath: Path := DefaultOMCLIProxyDir + "/" + DefaultOMCLIProxyBinaryName

  type Digest = Bytes

  /** The SHA-256 sum of a byte string. */
  type Hasher = Bytes -> Digest

  datatype Config = Config(omCLIProxyPath: Path, enhancedSecurityMode: bool)

  datatype Error =
    | UnexpectedBinaryName                                // the last element is not omcliproxy
    | SymlinkNotAllowed(path: Path)                       // lstat reports a symbolic link
    | IOError(cause: PathError)                           // lstat, open or read failed
    | ChecksumMismatch(current: Digest, original: Digest) // the binary changed since construction

  /** What Report hands to the process launcher: the binary and its arguments. */
  datatype Command = Command(path: Path, args: seq<string>)

  lemma DefaultPathIsAllowedName()
    ensures Base(DefaultOMCLIProxyPath) == DefaultOMCLIProxyBinaryName
  {
    BaseOfChild(DefaultOMCLIProxyDir, DefaultOMCLIProxyBinaryName);
  }

  // ---------------------------------------------------------------------
  // The gate, as functions of the filesystem
  // ---------------------------------------------------------------------

  /**
   * allowedOMCLIProxyBinary on the path it inspects: the name is checked
   * first, then the lstat entry must exist and not be a symbolic link.
   */
  function AllowedBinary(fs: FileSystem, path: Path): (r: Outcome<Error>)
    ensures r.Pass? <==> EndsWithElement(path, DefaultOMCLIProxyBinaryName) && path in fs && !fs[path].Symlink?
    ensures !EndsWithElement(path, DefaultOMCLIProxyBinaryName) ==> r == Fail(UnexpectedBinaryName)
    ensures EndsWithElement(path, DefaultOMCLIProxyBinaryName) && path !in fs ==>
      r == Fail(IOError(PathError("lstat", path, ENOENT)))
    ensures EndsWithElement(path, DefaultOMCLIProxyBinaryName) && path in fs && fs[path].Symlink? ==>
      r == Fail(SymlinkNotAllowed(path))
  {
    BaseIsLastElement(path, DefaultOMCLIProxyBinaryName);
    if Base(path) != DefaultOMCLIProxyBinaryName then Fail(UnexpectedBinaryName)
    else match Lstat(fs, path)
      case Failure(e) => Fail(IOError(e))
      case Success(entry) => if entry.Symlink? then Fail(SymlinkNotAllowed(path)) else Pass
  }

  /** fileSha256: the digest of every byte read through path; no digest when opening or reading fails. */
  function FileSha256(fs: FileSystem, sha256: Hasher, path: Path): (r: Result<Digest, Error>)
    ensures path in fs && fs[path].Plain? && fs[path].inode.File? && fs[path].inode.readable ==>
      r == Success(sha256(fs[path].inode.content))
    ensures path !in fs ==> r == Failure(IOError(PathError("open", path, ENOENT)))
    ensures path in fs && fs[path] == Plain(Dir) ==> r == Failure(IOError(PathError("read", path, EISDIR)))
    ensures path in fs && fs[path].Plain? && fs[path].inode.File? && !fs[path].inode.readable ==>
      r == Failure(IOError(PathError("open", path, EACCES)))
  {
    match ReadAll(fs, path)
    case Failure(e) => Failure(IOError(e))
    case Success(content) => Success(sha256(content))
  }

  /**
   * What NewOMReporter pins for a configured path: the digest of the binary,
   * or the error that refuses the construction. The security mode plays no part.
   */
  function Baseline(fs: FileSystem, sha256: Hasher, path: Path): (r: Result<Digest, Error>)
    ensures r.Success? <==>
      EndsWithElement(path, DefaultOMCLIProxyBinaryName) && path in fs
      && fs[path].Plain? && fs[path].inode.File? && fs[path].inode.readable
    ensures r.Success? ==> r.value == sha256(fs[path].inode.content)
  {
    match AllowedBinary(fs, path)
    case Fail(e) => Failure(e)
    case Pass => FileSha256(fs, sha256, path)
  }

  /** SuspiciousOMCLIProxyBinary on the two fields it reads: the path and the pinned digest. */
  function TamperCheck(fs: FileSystem, sha256: Hasher, path: Path, baseline: Digest): (r: Outcome<Error>)
    ensures r.Pass? <==> ReadAll(fs, path).Success? && sha256(ReadAll(fs, path).value) == baseline
    ensures ReadAll(fs, path).Failure? ==> r == Fail(IOError(ReadAll(fs, path).error))
    ensures ReadAll(fs, path).Success? && r.Fail? ==>
      r.error == ChecksumMismatch(sha256(ReadAll(fs, path).value), baseline)
  {
    match FileSha256(fs, sha256, path)
    case Failure(e) => Fail(e)
    case Success(current) =>
      if current == baseline then Pass else Fail(ChecksumMismatch(current, baseline))
  }

  /** The argument vector Report passes to omcliproxy. */
  function OMReportArgs(args: seq<string>): (argv: seq<string>)
    ensures |argv| == |args| + 3
    ensures argv[0] == DefaultOMReportCommandName && argv[|argv| - 2..] == ["-fmt", "xml"]
  {
    [DefaultOMReportCommandName] + args + ["-fmt", "xml"]
  }

  /** The caller's arguments inside an argument vector of Report's shape. */
  function CallerArgs(argv: seq<string>): Option<seq<string>> {
    if |argv| >= 3 && argv[0] == DefaultOMReportCommandName && argv[|argv| - 2..] == ["-fmt", "xml"]
    then Some(argv[1..|argv| - 2])
    else None
  }

  /** Report neither drops nor reorders nor alters the caller's arguments. */
  lemma OMReportArgsRoundTrip(args: seq<string>)
    ensures CallerArgs(OMReportArgs(args)) == Some(args)
  {
    var argv := OMReportArgs(args);
    assert argv[1..|argv| - 2] == args;
  }

  // ---------------------------------------------------------------------
  // The client object
  // ---------------------------------------------------------------------

  class OMReport {
    var omCLIProxyPath: Path
    var enhancedSecurityMode: bool
    var sha256Checksum: Digest

    /** The zero value of the Go struct, which code outside the package can still declare. */
    constructor Zero()
      ensures omCLIProxyPath == "" && !enhancedSecurityMode && sha256Checksum == []
    {
      omCLIProxyPath := "";
      enhancedSecurityMode := false;
      sha256Checksum := [];
    }

    /** The struct literal NewOMReporter starts from: the configuration, and no checksum yet. */
    constructor FromConfig(cfg: Config)
      ensures omCLIProxyPath == cfg.omCLIProxyPath && enhancedSecurityMode == cfg.enhancedSecurityMode
      ensures sha256Checksum == []
    {
      omCLIProxyPath := cfg.omCLIProxyPath;
      enhancedSecurityMode := cfg.enhancedSecurityMode;
      sha256Checksum := [];
    }

    /**
     * NewOMReporter: refuses a path the gate does not allow or a binary it
     * cannot hash; otherwise keeps the configuration and pins the digest.
     */
    static method NewOMReporter(cfg: Config, fs: FileSystem, sha256: Hasher) returns (r: Result<OMReport, Error>)
      ensures r.Success? <==> Baseline(fs, sha256, cfg.omCLIProxyPath).Success?
      ensures r.Failure? ==> r.error == Baseline(fs, sha256, cfg.omCLIProxyPath).error
      ensures r.Success? ==> fresh(r.value)
      ensures r.Success? ==>
        && r.value.omCLIProxyPath == cfg.omCLIProxyPath
        && r.value.enhancedSecurityMode == cfg.enhancedSecurityMode
        && r.value.sha256Checksum == Baseline(fs, sha256, cfg.omCLIProxyPath).value
      ensures r.Success? ==> r.value.omCLIProxyPath != ""
    {
      var om := new OMReport.FromConfig(cfg);
      var allowed := AllowedBinary(fs, om.omCLIProxyPath);
      if allowed.Fail? {
        return Failure(allowed.error);
      }
      var checksum := FileSha256(fs, sha256, cfg.omCLIProxyPath);
      if checksum.Failure? {
        return Failure(checksum.error);
      }
      om.sha256Checksum := checksum.value;
      return Success(om);
    }

    /** SuspiciousOMCLIProxyBinary: re-hashes the binary and compares with the pinned digest; changes nothing. */
    method SuspiciousOMCLIProxyBinary(fs: FileSystem, sha256: Hasher) returns (r: Outcome<Error>)
      ensures r == TamperCheck(fs, sha256, omCLIProxyPath, sha256Checksum)
    {
      var current := FileSha256(fs, sha256, omCLIProxyPath);
      if current.Failure? {
        return Fail(current.error);
      }
      if current.value != sha256Checksum {
        return Fail(ChecksumMismatch(current.value, sha256Checksum));
      }
      return Pass;
    }

    /**
     * Report: fills in the default path when none is set, runs the tamper
     * check in enhanced mode only, and builds the omreport command line.
     */
    method Report(fs: FileSystem, sha256: Hasher, args: seq<string>) returns (r: Result<Command, Error>)
      modifies this`omCLIProxyPath
      ensures omCLIProxyPath == if old(omCLIProxyPath) == "" then DefaultOMCLIProxyPath else old(omCLIProxyPath)
      ensures enhancedSecurityMode && TamperCheck(fs, sha256, omCLIProxyPath, sha256Checksum).Fail? ==>
        r == Failure(TamperCheck(fs, sha256, omCLIProxyPath, sha256Checksum).error)
      ensures !enhancedSecurityMode || TamperCheck(fs, sha256, omCLIProxyPath, sha256Checksum).Pass? ==>
        r == Success(Command(omCLIProxyPath, OMReportArgs(args)))
    {
      if omCLIProxyPath == "" {
        omCLIProxyPath := DefaultOMCLIProxyPath;
      }
      if enhancedSecurityMode {
        var err := SuspiciousOMCLIProxyBinary(fs, sha256);
        if err.Fail? {
          return Failure(err.error);
        }
      }
      var argv := [DefaultOMReportCommandName] + args;
      argv := argv + ["-fmt", "xml"];
      return Success(Command(omCLIProxyPath, argv));
    }
  }

  // ---------------------------------------------------------------------
  // What the gate guarantees
  // ---------------------------------------------------------------------

  /** The reason a construction is refused, in the order the checks run. */
  lemma BaselineRefusals(fs: FileSystem, sha256: Hasher, path: Path)
    ensures !EndsWithElement(path, DefaultOMCLIProxyBinaryName) ==> Baseline(fs, sha256, path) == Failure(UnexpectedBinaryName)
    ensures EndsWithElement(path, DefaultOMCLIProxyBinaryName) && path !in fs ==>
      Baseline(fs, sha256, path) == Failure(IOError(PathError("lstat", path, ENOENT)))
    ensures EndsWithElement(path, DefaultOMCLIProxyBinaryName) && path in fs && fs[path].Symlink? ==>
      Baseline(fs, sha256, path) == Failure(SymlinkNotAllowed(path))
    ensures EndsWithElement(path, DefaultOMCLIProxyBinaryName) && path in fs && fs[path] == Plain(Dir) ==>
      Baseline(fs, sha256, path) == Failure(IOError(PathError("read", path, EISDIR)))
  {
  }

  /** A digest pinned from a snapshot is accepted by the tamper check on that same snapshot. */
  lemma BaselineAcceptedAtOnce(fs: FileSystem, sha256: Hasher, path: Path)
    requires Baseline(fs, sha256, path).Success?
    ensures TamperCheck(fs, sha256, path, Baseline(fs, sha256, path).value) == Pass
  {
  }

  /**
   * Overwriting the binary is reported exactly when the digest of the new
   * bytes differs from the pinned one, and writing the original bytes back
   * clears the report: the check looks at content only, and remembers nothing.
   */
  lemma TamperDetectedThenCleared(fs: FileSystem, sha256: Hasher, path: Path, original: Bytes, changed: Bytes)
    requires path in fs && fs[path] == Plain(File(original, true))
    ensures var baseline := sha256(original);
      var tampered := WriteFile(fs, path, changed);
      var restored := WriteFile(tampered, path, original);
      && (TamperCheck(tampered, sha256, path, baseline).Pass? <==> sha256(changed) == sha256(original))
      && (TamperCheck(tampered, sha256, path, baseline).Fail? ==>
            TamperCheck(tampered, sha256, path, baseline).error == ChecksumMismatch(sha256(changed), baseline))
      && TamperCheck(restored, sha256, path, baseline) == Pass
  {
  }

  /**
   * The symbolic-link test runs at construction only: a path later replaced
   * by a link to a readable copy of the same bytes passes the tamper check,
   * although construction would refuse that path now.
   */
  lemma LinkToSameBytesUndetected(fs: FileSystem, sha256: Hasher, path: Path, copy: Path, original: Bytes)
    requires EndsWithElement(path, DefaultOMCLIProxyBinaryName) && copy != path
    ensures var swapped := fs[copy := Plain(File(original, true))][path := Symlink(copy)];
      && TamperCheck(swapped, sha256, path, sha256(original)) == Pass
      && Baseline(swapped, sha256, path) == Failure(SymlinkNotAllowed(path))
  {
    var swapped := fs[copy := Plain(File(original, true))][path := Symlink(copy)];
    assert Follow(swapped, path, MaxSymlinks) == Follow(swapped, copy, MaxSymlinks - 1);
  }

  /** omreport_test.go's refused names: neither "maliciousproxy" nor "maliciousproxylink" is omcliproxy. */
  lemma TestBinariesRefusedByName(fs: FileSystem, sha256: Hasher)
    ensures Baseline(fs, sha256, "testdata/maliciousproxy") == Failure(UnexpectedBinaryName)
    ensures Baseline(fs, sha256, "testdata/maliciousproxylink") == Failure(UnexpectedBinaryName)
  {
    assert !EndsWithElement("testdata/maliciousproxy", DefaultOMCLIProxyBinaryName);
    assert !EndsWithElement("testdata/maliciousproxylink", DefaultOMCLIProxyBinaryName);
  }

  /**
   * What the test of a symbolic link needs in order to reach the link check:
   * a link whose own last element is omcliproxy, which is refused as a link.
   */
  lemma LinkNamedOmcliproxyRefused(fs: FileSystem, sha256: Hasher, target: Path)
    requires "testdata/link/omcliproxy" in fs && fs["testdata/link/omcliproxy"] == Symlink(target)
    ensures Baseline(fs, sha256, "testdata/link/omcliproxy") == Failure(SymlinkNotAllowed("testdata/link/omcliproxy"))
  {
    assert EndsWithElement("testdata/link/omcliproxy", DefaultOMCLIProxyBinaryName);
  }

  /**
   * Building a reporter and asking it for a report on the same snapshot:
   * the report is refused only when construction is, whatever the mode.
   */
  method ReportFromFreshReporter(cfg: Config, fs: FileSystem, sha256: Hasher, args: seq<string>)
    returns (r: Result<Command, Error>)
    ensures Baseline(fs, sha256, cfg.omCLIProxyPath).Failure? ==>
      r == Failure(Baseline(fs, sha256, cfg.omCLIProxyPath).error)
    ensures Baseline(fs, sha256, cfg.omCLIProxyPath).Success? ==>
      r == Success(Command(cfg.omCLIProxyPath, OMReportArgs(args)))
  {
    var built := OMReport.NewOMReporter(cfg, fs, sha256);
    if built.Failure? {
      return Failure(built.error);
    }
    var om := built.value;
    ghost var baseline := Baseline(fs, sha256, cfg.omCLIProxyPath);
    assert om.omCLIProxyPath == cfg.omCLIProxyPath != "" && om.sha256Checksum == baseline.value;
    BaselineAcceptedAtOnce(fs, sha256, cfg.omCLIProxyPath);
    r := om.Report(fs, sha256, args);
  }

  /** A zero-value OMReport runs the default binary with no check at all. */
  method ReportFromZeroValue(fs: FileSystem, sha256: Hasher, args: seq<string>) returns (r: Result<Command, Error>)
    ensures r == Success(Command(DefaultOMCLIProxyPath, OMReportArgs(args)))
  {
    var om := new OMReport.Zero();
    r := om.Report(fs, sha256, args);
  }

  /**
   * The scenario of omreport_test.go: pin a binary holding "foo", overwrite
   * it with "bar" (reported), then with "foo" again (accepted).
   */
  method FooBarFooScenario(fs: FileSystem, sha256: Hasher, dir: Path)
    returns (afterChange: Outcome<Error>, afterRestore: Outcome<Error>)
    requires dir + "/omcliproxy" !in fs
    requires sha256(Foo) != sha256(Bar)
    ensures afterChange == Fail(ChecksumMismatch(sha256(Bar), sha256(Foo)))
    ensures afterRestore == Pass
  {
    var path := dir + "/" + DefaultOMCLIProxyBinaryName;
    assert path == dir + "/omcliproxy";
    BaseOfChild(dir, DefaultOMCLIProxyBinaryName);
    BaseIsLastElement(path, DefaultOMCLIProxyBinaryName);
    var fs1 := WriteFile(fs, path, Foo);
    var built := OMReport.NewOMReporter(Config(path, true), fs1, sha256);
    var om := built.value;
    var fs2 := WriteFile(fs1, path, Bar);
    afterChange := om.SuspiciousOMCLIProxyBinary(fs2, sha256);
    var fs3 := WriteFile(fs2, path, Foo);
    afterRestore := om.SuspiciousOMCLIProxyBinary(fs3, sha256);
  }

  const Foo: Bytes := [0x66, 0x6f, 0x6f]
  const Bar: Bytes := [0x62, 0x61, 0x72]

  // ---------------------------------------------------------------------
  // Physical-disk attributes
  // ---------------------------------------------------------------------

  /** The (bool, error) pair the attribute predicates return. */
  datatype FlagAndError = FlagAndError(flag: bool, err: Option<NumError>)

  /**
   * `attr & flag > 0` on whatever int64 ParseInt(mask, 2, 64) returns, beside
   * the parse error: after an error the bool is still computed, from 0 or
   * from the clamped bound.
   */
  function MaskHas(mask: string, attr: int): (r: FlagAndError)
    ensures r.err == ParseIntError(mask)
  {
    FlagAndError(And(ParseIntValue(mask), attr) > 0, ParseIntError(mask))
  }

  /** (*PDisk).FailurePredicted: bit 11 of the mask, AttrFailurePredicted. */
  function FailurePredicted(p: PDisk): (r: FlagAndError)
    ensures r.err == ParseIntError(p.attributesMask)
    ensures r.flag <==> Bit(ParseIntValue(p.attributesMask), 11)
  {
    AttributeBits();
    AndSingleBit(ParseIntValue(p.attributesMask), 11);
    MaskHas(p.attributesMask, AttrFailurePredicted)
  }

  /** (*PDisk).GlobalHotSpare: bit 7 of the mask, AttrGlobalHS. */
  function GlobalHotSpare(p: PDisk): (r: FlagAndError)
    ensures r.err == ParseIntError(p.attributesMask)
    ensures r.flag <==> Bit(ParseIntValue(p.attributesMask), 7)
  {
    AttributeBits();
    AndSingleBit(ParseIntValue(p.attributesMask), 7);
    MaskHas(p.attributesMask, AttrGlobalHS)
  }

  /** (*PDisk).DedicatedHotSpare: bit 8 of the mask, AttrDedicatedHS. */
  function DedicatedHotSpare(p: PDisk): (r: FlagAndError)
    ensures r.err == ParseIntError(p.attributesMask)
    ensures r.flag <==> Bit(ParseIntValue(p.attributesMask), 8)
  {
    AttributeBits();
    AndSingleBit(ParseIntValue(p.attributesMask), 8);
    MaskHas(p.attributesMask, AttrDedicatedHS)
  }

  /**
   * For a mask of at most 63 binary digits, as omreport prints them, each
   * predicate reads its digit counted from the right, without error.
   */
  lemma AttributesOfDigitMask(p: PDisk)
    requires p.attributesMask != [] && IsBinaryDigits(p.attributesMask) && |p.attributesMask| <= 63
    ensures var m := p.attributesMask;
      && FailurePredicted(p) == FlagAndError(|m| > 11 && m[|m| - 12] == '1', None)
      && GlobalHotSpare(p) == FlagAndError(|m| > 7 && m[|m| - 8] == '1', None)
      && DedicatedHotSpare(p) == FlagAndError(|m| > 8 && m[|m| - 9] == '1', None)
  {
    var m := p.attributesMask;
    ShortDigitsParse(m);
    assert IsBinaryLiteral(m) && LiteralValue(m) == BinaryValue(m) by {
      assert Unsigned(m) == m;
    }
    BitOfBinary(m, 11);
    BitOfBinary(m, 7);
    BitOfBinary(m, 8);
  }

  /**
   * A mask that does not parse reads as no attribute at all, except a
   * too-large unsigned one, which clamps to MaxInt64 and reads as every
   * attribute at once; the error is returned beside the bool either way.
   */
  lemma AttributesOfBadMask(p: PDisk)
    requires ParseInt(p.attributesMask).Failure?
    ensures FailurePredicted(p).err.Some? && GlobalHotSpare(p).err.Some? && DedicatedHotSpare(p).err.Some?
    ensures var all := ParseInt(p.attributesMask).error == ErrRange && p.attributesMask[0] != '-';
      && (FailurePredicted(p).flag <==> all)
      && (GlobalHotSpare(p).flag <==> all)
      && (DedicatedHotSpare(p).flag <==> all)
  {
    var m := p.attributesMask;
    Pow2Of63();
    if ParseInt(m).error == ErrSyntax {
      BitOfZero(11); BitOfZero(7); BitOfZero(8);
    } else if m[0] == '-' {
      BitOfMinusPow2(63, 11); BitOfMinusPow2(63, 7); BitOfMinusPow2(63, 8);
    } else {
      BitOfLowOnes(63, 11); BitOfLowOnes(63, 7); BitOfLowOnes(63, 8);
    }
  }
}
