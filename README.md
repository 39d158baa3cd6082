# gomreport trust gate and code tables, in Dafny

gomreport is a Go client for Dell's `omreport` tool. It reaches `omreport`
through the `omcliproxy` binary. This project models the two parts of it that
decide something:

- **The trust gate** (`omreport.go`). `NewOMReporter` accepts a configured
  `omcliproxy` path only when its last element is `omcliproxy` and `lstat`
  shows a plain entry, not a symbolic link. It then pins the SHA-256 of the
  binary's bytes. `Report` fills in the default path when none is set. In
  enhanced security mode it re-hashes the binary first (through
  `SuspiciousOMCLIProxyBinary`) and refuses to run on a mismatch. It then
  builds the command line `omreport <args> -fmt xml`.
- **The physical-disk attribute predicates** (`omreport.go`).
  `FailurePredicted`, `GlobalHotSpare` and `DedicatedHotSpare` parse a disk's
  base-2 `AttributesMask` with `strconv.ParseInt` and test one bit each.
- **The code tables** (`structs.go`). These are the attribute bits, the
  status, state, layout and bus-protocol codes, and the four `String`
  methods that label those codes.

How the model is laid out:

- Modules:
  - `Omreport` (`omreport.dfy`) holds the gate, the `OMReport` class and the
    predicates.
  - `Structs` (`structs.dfy`) holds the code tables.
  - `Os` (`os.dfy`) holds the operating-system calls the gate makes. The
    filesystem is a snapshot: a map from path to entry, where an entry is a
    plain file or directory, or a symbolic link. It covers `filepath.Base`,
    `os.Lstat`, and `os.Open` followed by reading to the end.
  - `Strconv` (`strconv.dfy`) holds the conversions: `strconv.ParseInt(s, 2, 64)`
    with Go's returned value on errors, `&` on int64, and decimal formatting.
  - `Wrappers` holds `Option`, `Result` and `Outcome`.
- The filesystem and the SHA-256 function are parameters of each operation.
  The digest is an arbitrary function of the bytes. A property that needs two
  contents to hash differently says so in its `requires`.
- The `OMReport` struct is a Dafny class with the Go struct's three fields.
  `Report` may change only `omCLIProxyPath`, which is the one field it
  assigns.

## Model

| member | source | states |
|---|---|---|
| Os.Base | omreport.go:311 | `filepath.Base` on a Unix path: never empty, and "." for the empty path |
| Os.BaseIsLastElement | omreport.go:311-314 | for a single path element `name`, `Base(path) == name` holds exactly when `path`, trailing slashes ignored, ends in `/name` or is `name` |
| Os.BaseOfChild | omreport.go:85 | the base of `dir/name` is `name`, so `filepath.Join(dir, name)` passes the name check |
| Os.Lstat | omreport.go:317-320 | `os.Lstat` succeeds exactly for an existing path and returns its entry unresolved; otherwise an `lstat` ENOENT error |
| Os.ReadAll | omreport.go:344-353 | open follows links. A missing path is an `open` ENOENT error, an unreadable file an `open` EACCES error, and a directory a `read` EISDIR error. What is read is the content of the file the path resolves to |
| Os.WriteFile | omreport_test.go:58 | `ioutil.WriteFile` onto a regular file or a new path: the file then holds exactly the written bytes. A new file is readable; an existing one keeps its permission, so reading it gives the bytes or EACCES. No other path's entry changes |
| Strconv.ParseDigits | omreport.go:283 | the base-2 digit loop of `ParseUint` succeeds exactly on a string of binary digits whose value fits in 64 bits, and returns that value. It fails with a range error exactly when some run of leading digits exceeds 64 bits, and with a syntax error otherwise |
| Strconv.ParseUint | omreport.go:283 | `ParseUint(s, 2, 64)`: a syntax error for the empty string; otherwise it succeeds iff every character is a binary digit and the value fits in uint64. The error is a range error exactly when some run of leading digits exceeds 64 bits |
| Strconv.ParseInt | omreport.go:283 | `ParseInt(s, 2, 64)` succeeds exactly on an optionally signed non-empty binary literal whose value lies in int64, and returns that value. The error is a range error exactly when the digits after the sign overflow 64 bits or the literal lies outside int64 |
| Strconv.ParseIntValue | omreport.go:283-284 | the int64 Go returns beside the error: the value on success, 0 after a syntax error, and MinInt64 or MaxInt64 (by sign) after a range error |
| Strconv.ParseIntError | omreport.go:283-284 | the returned error is nil exactly when parsing succeeds, and otherwise is the parse failure |
| Strconv.RangeErrorBeforeLaterSyntax | omreport.go:283 | digits that overflow 64 bits give a range error whatever follows them, even a bad character |
| Strconv.ShortDigitsParse | omreport.go:283 | a non-empty string of at most 63 binary digits always parses, to its binary value |
| Strconv.Pow2Of63 | omreport.go:283 | 2^63 is MaxInt64 + 1 and -MinInt64 |
| Strconv.BinaryValueBound | omreport.go:283 | n binary digits have a value below 2^n |
| Strconv.AndSingleBit | omreport.go:284 | `x & (1 << k)` is `1 << k` when bit k of x is set and 0 otherwise, negative x included |
| Strconv.BitOfBinary | omreport.go:283-284 | bit k of a parsed digit string is its k-th digit from the right |
| Strconv.BitOfLowOnes | omreport.go:284 | 2^n - 1 has exactly bits 0..n-1 set (used for MaxInt64) |
| Strconv.BitOfMinusPow2 | omreport.go:284 | -2^n has bits 0..n-1 clear (used for MinInt64) |
| Strconv.FormatIntRoundTrip | structs.go:308 | decimal formatting of a code is read back to the same code |
| Strconv.FormatIntInjective | structs.go:308 | distinct codes format differently |
| Structs.AttributeBits | structs.go:20-24 | each `Attr…` constant is the power of two its `1 << k` says |
| Structs.StateCodesAreSingleBits | structs.go:30-41 | every state code has exactly one bit set |
| Structs.LayoutCodesAreSingleBits | structs.go:43-47 | every layout code has exactly one bit set |
| Structs.UnknownLabel | structs.go:308 | the label of an unknown code starts with its type's "Unknown … code " prefix |
| Structs.UnknownLabelInjective | structs.go:308 | with the code in decimal, the unknown label determines the code |
| Structs.UnknownLabelAsWritten | structs.go:308 | with `string(code)`, the label is the prefix plus one character |
| Structs.StatusString | structs.go:299-310 | a status code is known exactly when its label does not start with "Unknown status code " |
| Structs.StatusLabels | structs.go:25-27 | codes 2, 3 and 4 read "OK", "Non-critical" and "Critical" |
| Structs.StatusStringInjective | structs.go:299-310 | distinct status codes get distinct labels |
| Structs.StatusStringAsWritten | structs.go:299-310 | the method as written agrees with the corrected one on known codes, and gives the prefix plus one character on unknown ones |
| Structs.StatusRuneRenderingCollides | structs.go:308 | as written, status codes -1 and -2 share a label and 65 reads "Unknown status code A"; corrected, -1 and -2 differ |
| Structs.StateString | structs.go:312-341 | a state code is known exactly when its label does not start with "Unknown state code " |
| Structs.StateLabels | structs.go:29-41 | each of the twelve state codes reads as its name |
| Structs.StateStringInjective | structs.go:312-341 | distinct state codes get distinct labels |
| Structs.StateStringAsWritten | structs.go:312-341 | the method as written agrees with the corrected one on known codes, and gives the prefix plus one character on unknown ones |
| Structs.StateRuneRenderingCollides | structs.go:339 | as written, state codes -1 and -2 share a label; corrected, they differ |
| Structs.BusProtocolString | structs.go:343-358 | a bus-protocol code is known exactly when its label does not start with "Unknown bus protocol code " |
| Structs.BusProtocolLabels | structs.go:49-53 | codes 1, 2, 7, 8 and 9 read "SCSI", "IDE", "SATA", "SAS" and "PCIe" |
| Structs.BusProtocolStringInjective | structs.go:343-358 | distinct bus-protocol codes get distinct labels |
| Structs.BusProtocolStringAsWritten | structs.go:343-358 | the method as written agrees with the corrected one on known codes, and gives the prefix plus one character on unknown ones |
| Structs.BusProtocolRuneRenderingCollides | structs.go:356 | as written, bus-protocol codes -1 and -2 share a label; corrected, they differ |
| Structs.LayoutString | structs.go:360-375 | a layout code is known exactly when its label does not start with "Unknown layout code " |
| Structs.LayoutLabels | structs.go:43-47 | codes 2, 4, 64, 128 and 262144 read "RAID-0" to "RAID-60" |
| Structs.LayoutStringInjective | structs.go:360-375 | distinct layout codes get distinct labels |
| Structs.LayoutStringAsWritten | structs.go:360-375 | the method as written agrees with the corrected one on known codes, and gives the prefix plus one character on unknown ones |
| Structs.LayoutRuneRenderingCollides | structs.go:373 | as written, layout codes -1 and -2 share a label; corrected, they differ |
| Omreport.DefaultPathIsAllowedName | omreport.go:15-24 | the default path `/opt/dell/srvadmin/sbin/omcliproxy` passes the name check |
| Omreport.AllowedBinary | omreport.go:306-323 | passes iff the last element is `omcliproxy` and lstat finds a non-link entry. A wrong name fails first (without lstat), then a missing path (lstat ENOENT), then a symbolic link |
| Omreport.FileSha256 | omreport.go:343-358 | a readable regular file gives the digest of its whole content; a missing path, an unreadable file and a directory give their open/read errors |
| Omreport.Baseline | omreport.go:66-80 | construction succeeds iff the name is right and the path is a plain, readable regular file; the pinned digest is the hash of its content |
| Omreport.TamperCheck | omreport.go:331-340 | passes iff the binary can be read now and its digest equals the pinned one. A read failure is returned as is, and a mismatch carries both digests |
| Omreport.OMReportArgs | omreport.go:91-92 | the argument vector has three more entries than the caller's arguments, starting with `omreport` and ending with `-fmt xml` |
| Omreport.OMReportArgsRoundTrip | omreport.go:91-92 | the caller's arguments can be read back unchanged from the argument vector |
| Omreport.OMReport.Zero | omreport.go:47-52 | the zero-valued struct: empty path, normal mode, no checksum |
| Omreport.OMReport.FromConfig | omreport.go:67-70 | the struct literal copies the configuration and has no checksum |
| Omreport.OMReport.NewOMReporter | omreport.go:66-80 | succeeds exactly when `Baseline` does, and fails with its error otherwise. On success the object is new, copies the configuration, pins `Baseline`'s digest and has a non-empty path |
| Omreport.OMReport.SuspiciousOMCLIProxyBinary | omreport.go:331-340 | returns `TamperCheck` of the object's path and pinned digest, and changes nothing |
| Omreport.OMReport.Report | omreport.go:83-95 | the path becomes the default exactly when it was empty. In enhanced mode a failing tamper check's error is returned. Otherwise (normal mode, or the check passes) the command is the path and `OMReportArgs(args)` |
| Omreport.BaselineRefusals | omreport.go:306-323 | the refusal reasons in check order: wrong name, missing path, symbolic link, directory |
| Omreport.BaselineAcceptedAtOnce | omreport.go:66-80 | a digest pinned from a snapshot passes the tamper check on the same snapshot |
| Omreport.TamperDetectedThenCleared | omreport.go:331-340 | after the binary is overwritten, the check fails iff the new bytes hash differently, with both digests. Writing the original bytes back passes again |
| Omreport.LinkToSameBytesUndetected | omreport.go:331-340 | the link test runs only at construction: a path later replaced by a link to the same bytes passes the tamper check, though construction would refuse it |
| Omreport.TestBinariesRefusedByName | omreport_test.go:14-28 | `testdata/maliciousproxy` and `testdata/maliciousproxylink` are both refused by the name check |
| Omreport.LinkNamedOmcliproxyRefused | omreport.go:317-319 | a symbolic link whose last element is `omcliproxy` passes the name check and is refused as a link |
| Omreport.ReportFromFreshReporter | omreport.go:66-95 | constructing and then reporting on one snapshot succeeds iff construction does, whatever the mode, and yields the configured path with the built argument vector |
| Omreport.ReportFromZeroValue | omreport.go:83-95 | a zero-valued reporter runs the default binary with no check |
| Omreport.FooBarFooScenario | omreport_test.go:49-77 | pin "foo", overwrite with "bar": the check reports the mismatch of both digests. Write "foo" back: the check passes (given "foo" and "bar" hash differently) |
| Omreport.FailurePredicted | omreport.go:282-285 | the bool is bit 11 of the int64 ParseInt returns (0 or a clamped bound after an error), and the error is ParseInt's |
| Omreport.GlobalHotSpare | omreport.go:289-292 | the bool is bit 7 of the int64 ParseInt returns, and the error is ParseInt's |
| Omreport.DedicatedHotSpare | omreport.go:296-299 | the bool is bit 8 of the int64 ParseInt returns, and the error is ParseInt's |
| Omreport.AttributesOfDigitMask | omreport.go:282-299 | for 1 to 63 binary digits, with no error, each predicate reads its digit counted from the right (11, 7, 8) |
| Omreport.AttributesOfBadMask | omreport.go:282-299 | an unparsable mask returns an error, and the bool is false. The exception is a positive out-of-range mask: it clamps to MaxInt64 and all three predicates say true |

## Left out

- Running the binary. `exec.Command(...).CombinedOutput()` is left out, as is the output it returns. `Report` returns the command it would run.
- The `About`, `Chassis…` and `Storage…` wrappers, which are `Report` followed by XML decoding. XML decoding is left out too.
- The SHA-256 algorithm. The digest function is a parameter of each operation.
- `f.Close()` errors in `fileSha256`: closing is not modelled.
- The file handle leaks when `io.Copy` fails.
- Errors are kinds, not formatted messages.
- Relative symbolic-link targets: a link target is taken as a full key of the snapshot.
- Link-resolution details beyond a limit of 40 hops.
- Trailing-slash behaviour of `lstat` on a path.
- `filepath.Join` is modelled only for joining a directory and a single name.
- Concurrency. Each call sees one snapshot, so the window between the gate and `exec` (and between `lstat` and `open`) is not modelled.
- A nil `*Config`, which makes Go panic.
- `NaN` and the float64 fields of the other records.
- The records other than `PDisk`, which only carry decoded values.
- Os.WriteFile: writing through a symbolic link, or onto a directory (which fails with EISDIR), is outside its precondition. The test writes a plain file only.
- Symbolic links in parent directories. Every path is a full key of the snapshot, so `lstat` and `open` never resolve a link in a parent directory, and the gate's link test, which sees only the last entry, is not shown to miss one.
- `lstat` errors other than ENOENT, such as EACCES or ENOTDIR on a parent directory.
- The empty path: Go's `open("")` and `lstat("")` always fail, while the snapshot could hold a key `""`. The name check refuses `""` first (its base is "."), so only `ReadAll` can see it.
- Lookup through `$PATH`. For a configured path with no `/` in it, such as `omcliproxy`, `exec.Command` at omreport.go:94 searches `$PATH`, so the file that runs can differ from `./omcliproxy`, the file that was checked and hashed. The model treats the command's path as the file that runs.

## Findings

| source | as written | input that shows it | evidently intended | confidence | as-written member | corrected member |
|---|---|---|---|---|---|---|
| structs.go:308 | the default arm formats `string(*s)`, which turns the code into the single character with that code point | status -1 and -2 both read "Unknown status code �"; status 65 reads "Unknown status code A" | the code in decimal, so that distinct unknown codes get distinct labels | not executed | Structs.StatusRuneRenderingCollides | Structs.StatusStringInjective |
| structs.go:339 | the same `string(*s)` in (*State).String | state -1 and -2 both read "Unknown state code �" | the code in decimal | not executed | Structs.StateRuneRenderingCollides | Structs.StateStringInjective |
| structs.go:356 | the same `string(*b)` in (*BusProtocol).String | bus protocol -1 and -2 both read "Unknown bus protocol code �" | the code in decimal | not executed | Structs.BusProtocolRuneRenderingCollides | Structs.BusProtocolStringInjective |
| structs.go:373 | the same `string(*l)` in (*Layout).String | layout -1 and -2 both read "Unknown layout code �" | the code in decimal | not executed | Structs.LayoutRuneRenderingCollides | Structs.LayoutStringInjective |
| omreport_test.go:22-28 | the subtest for a binary that is a symbolic link uses `testdata/maliciousproxylink`, whose name already fails the name check, so the link check is never exercised | `testdata/maliciousproxylink` is refused as `UnexpectedBinaryName`, whatever kind of entry it is | a link whose last element is `omcliproxy`, which reaches the link check and is refused there | not executed | Omreport.TestBinariesRefusedByName | Omreport.LinkNamedOmcliproxyRefused |
