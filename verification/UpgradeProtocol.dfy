/**
  The two upgrade messages and their validation (uni_protocol/upgrade.go). The runtime works with
  the typed `Status`; `Encode` gives the strings that travel on the wire, and `ValidateStatus`
  checks those against the whitelists.
 */
module UpgradeProtocol {
  import opened Options
  import opened Decimal
  import Semver

  datatype Directive = Directive(requestId: string, targetVersion: string, sha256: string, sizeBytes: int)

  datatype Stage = Downloading | Verifying | Installing | Restarting | Failed | RolledBack

  datatype Reason =
    | DownloadFailed | ChecksumMismatch | SmokeTestFailed | NoWritePermission | ReplaceFailed
    | ExecFailed | NotConnectedAfterUpgrade | PlatformUnsupported | ArtifactMissing

  datatype Status = Status(
    requestId: string, state: Stage, targetVersion: string, fromVersion: string,
    progress: Option<int>, reason: Option<Reason>)

  /** `UpgradeStatus` as it is sent: an empty string stands for an absent field. */
  datatype WireStatus = WireStatus(
    requestId: string, state: string, targetVersion: string, fromVersion: string,
    progress: Option<int>, reasonCode: string)

  datatype ErrorKind = MissingField | InvalidPayload

  datatype DecodeError = DecodeError(field: string, kind: ErrorKind)

  const STATES: seq<string> :=
    ["downloading", "verifying", "installing", "restarting", "failed", "rolled_back"]

  const REASON_CODES: seq<string> :=
    ["download_failed", "checksum_mismatch", "smoke_test_failed", "no_write_permission", "replace_failed",
     "exec_failed", "not_connected_after_upgrade", "platform_unsupported", "artifact_missing"]

  function StateName(s: Stage): string {
    match s
    case Downloading => STATES[0]
    case Verifying => STATES[1]
    case Installing => STATES[2]
    case Restarting => STATES[3]
    case Failed => STATES[4]
    case RolledBack => STATES[5]
  }

  function ReasonCode(r: Reason): string {
    match r
    case DownloadFailed => REASON_CODES[0]
    case ChecksumMismatch => REASON_CODES[1]
    case SmokeTestFailed => REASON_CODES[2]
    case NoWritePermission => REASON_CODES[3]
    case ReplaceFailed => REASON_CODES[4]
    case ExecFailed => REASON_CODES[5]
    case NotConnectedAfterUpgrade => REASON_CODES[6]
    case PlatformUnsupported => REASON_CODES[7]
    case ArtifactMissing => REASON_CODES[8]
  }

  function Encode(st: Status): WireStatus {
    WireStatus(st.requestId, StateName(st.state), st.targetVersion, st.fromVersion, st.progress,
               if st.reason.Some? then ReasonCode(st.reason.value) else "")
  }

  predicate IsDecimalId(s: string) {
    s != "" && AllDigits(s)
  }

  predicate IsSha256Hex(s: string) {
    |s| == 64 && forall i | 0 <= i < |s| :: '0' <= s[i] <= '9' || 'a' <= s[i] <= 'f'
  }

  function Require(condition: bool, field: string, kind: ErrorKind): Check<DecodeError> {
    if condition then Pass else Fail(DecodeError(field, kind))
  }

  function ValidateDirective(d: Directive): Check<DecodeError> {
    Require(IsDecimalId(d.requestId), "request_id", MissingField)
    .Then(Require(Semver.IsSemver(d.targetVersion), "target_version", InvalidPayload))
    .Then(Require(IsSha256Hex(d.sha256), "sha256", InvalidPayload))
    .Then(Require(d.sizeBytes > 0, "size_bytes", InvalidPayload))
  }

  function ValidateStatus(s: WireStatus): Check<DecodeError> {
    Require(IsDecimalId(s.requestId), "request_id", MissingField)
    .Then(Require(s.state in STATES, "state", InvalidPayload))
    .Then(Require(Semver.IsSemver(s.targetVersion), "target_version", InvalidPayload))
    .Then(Require(s.fromVersion == "" || Semver.IsSemver(s.fromVersion), "from_version", InvalidPayload))
    .Then(Require(s.progress.Some? ==> s.state == "downloading", "progress", InvalidPayload))
    .Then(Require(s.progress.Some? ==> 0 <= s.progress.value <= 100, "progress", InvalidPayload))
    .Then(Require(s.reasonCode == "" || s.reasonCode in REASON_CODES, "reason_code", InvalidPayload))
    .Then(if s.state == "failed" || s.state == "rolled_back"
          then Require(s.reasonCode != "", "reason_code", MissingField)
          else Require(s.reasonCode == "", "reason_code", InvalidPayload))
  }

  predicate ValidDirective(d: Directive) {
    ValidateDirective(d).Pass?
  }

  lemma ValidDirectiveMeans(d: Directive)
    ensures ValidDirective(d) <==>
      IsDecimalId(d.requestId) && Semver.IsSemver(d.targetVersion) && IsSha256Hex(d.sha256) && d.sizeBytes > 0
  {
  }

  /** A status is accepted for a decimal id, known states and reasons, legal versions, and what goes with its state. */
  lemma ValidStatusMeans(s: WireStatus)
    ensures ValidateStatus(s).Pass? <==>
      && IsDecimalId(s.requestId) && Semver.IsSemver(s.targetVersion)
      && (s.fromVersion == "" || Semver.IsSemver(s.fromVersion))
      && s.state in STATES
      && (s.progress.Some? ==> s.state == "downloading" && 0 <= s.progress.value <= 100)
      && (if s.state in ["failed", "rolled_back"] then s.reasonCode in REASON_CODES else s.reasonCode == "")
  {
    hide IsDecimalId, Semver.IsSemver;
    assert s.state in ["failed", "rolled_back"] <==> s.state == "failed" || s.state == "rolled_back";
    EmptyIsNoReason();
  }

  lemma EmptyIsNoReason()
    ensures "" !in REASON_CODES
  {
  }

  /** The names on the wire. */
  lemma WireNames()
    ensures StateName(Downloading) == "downloading" && StateName(Verifying) == "verifying"
    ensures StateName(Installing) == "installing" && StateName(Restarting) == "restarting"
    ensures StateName(Failed) == "failed" && StateName(RolledBack) == "rolled_back"
    ensures ReasonCode(DownloadFailed) == "download_failed" && ReasonCode(ChecksumMismatch) == "checksum_mismatch"
    ensures ReasonCode(SmokeTestFailed) == "smoke_test_failed" && ReasonCode(NoWritePermission) == "no_write_permission"
    ensures ReasonCode(ReplaceFailed) == "replace_failed" && ReasonCode(ExecFailed) == "exec_failed"
    ensures ReasonCode(NotConnectedAfterUpgrade) == "not_connected_after_upgrade"
    ensures ReasonCode(PlatformUnsupported) == "platform_unsupported"
      && ReasonCode(ArtifactMissing) == "artifact_missing"
  {
  }

  /** Nothing of a status is lost on the wire. */
  lemma EncodeInjective(a: Status, b: Status)
    requires Encode(a) == Encode(b)
    ensures a == b
  {
    StateNameInjective(a.state, b.state);
    if a.reason.Some? {
      ReasonCodes(a.reason.value);
    }
    if b.reason.Some? {
      ReasonCodes(b.reason.value);
    }
    if a.reason.Some? && b.reason.Some? {
      ReasonCodeInjective(a.reason.value, b.reason.value);
    }
  }

  lemma StateNameInjective(a: Stage, b: Stage)
    requires StateName(a) == StateName(b)
    ensures a == b
  {
    assert |STATES[0]| == 11 && |STATES[1]| == 9 && |STATES[2]| == 10 && |STATES[3]| == 10 && |STATES[4]| == 6
      && |STATES[5]| == 11;
    assert STATES[0][0] == 'd' && STATES[5][0] == 'r' && STATES[2][0] == 'i' && STATES[3][0] == 'r';
  }

  lemma ReasonCodeInjective(a: Reason, b: Reason)
    requires ReasonCode(a) == ReasonCode(b)
    ensures a == b
  {
    assert |REASON_CODES[0]| == 15 && |REASON_CODES[1]| == 17 && |REASON_CODES[2]| == 17 && |REASON_CODES[3]| == 19;
    assert |REASON_CODES[4]| == 14 && |REASON_CODES[5]| == 11 && |REASON_CODES[6]| == 27;
    assert |REASON_CODES[7]| == 20 && |REASON_CODES[8]| == 16;
    assert REASON_CODES[1][0] == 'c' && REASON_CODES[2][0] == 's';
  }

  // ----- the code of the two validations -----

  method DecimalId(s: string) returns (ok: bool)
    ensures ok == IsDecimalId(s)
  {
    if s == "" {
      return false;
    }
    for i := 0 to |s|
      invariant forall j :: 0 <= j < i ==> IsDigit(s[j])
    {
      if s[i] < '0' || s[i] > '9' {
        return false;
      }
    }
    ok := true;
  }

  method Sha256Hex(s: string) returns (ok: bool)
    ensures ok == IsSha256Hex(s)
  {
    if |s| != 64 {
      return false;
    }
    for i := 0 to |s|
      invariant forall j :: 0 <= j < i ==> '0' <= s[j] <= '9' || 'a' <= s[j] <= 'f'
    {
      var c := s[i];
      if (c >= '0' && c <= '9') || (c >= 'a' && c <= 'f') {
        continue;
      }
      return false;
    }
    ok := true;
  }

  method CheckDirective(d: Directive) returns (r: Check<DecodeError>)
    ensures r == ValidateDirective(d)
  {
    hide IsDecimalId, IsSha256Hex, Semver.IsSemver;
    var id := DecimalId(d.requestId);
    if !id {
      return Fail(DecodeError("request_id", MissingField));
    }
    if !Semver.IsSemver(d.targetVersion) {
      return Fail(DecodeError("target_version", InvalidPayload));
    }
    var hex := Sha256Hex(d.sha256);
    if !hex {
      return Fail(DecodeError("sha256", InvalidPayload));
    }
    if d.sizeBytes <= 0 {
      return Fail(DecodeError("size_bytes", InvalidPayload));
    }
    r := Pass;
  }

  method CheckStatus(s: WireStatus) returns (r: Check<DecodeError>)
    ensures r == ValidateStatus(s)
  {
    hide IsDecimalId, Semver.IsSemver;
    var id := DecimalId(s.requestId);
    if !id {
      return Fail(DecodeError("request_id", MissingField));
    }
    if s.state !in STATES {
      return Fail(DecodeError("state", InvalidPayload));
    }
    if !Semver.IsSemver(s.targetVersion) {
      return Fail(DecodeError("target_version", InvalidPayload));
    }
    if s.fromVersion != "" && !Semver.IsSemver(s.fromVersion) {
      return Fail(DecodeError("from_version", InvalidPayload));
    }
    if s.progress.Some? {
      if s.state != "downloading" {
        return Fail(DecodeError("progress", InvalidPayload));
      }
      if s.progress.value < 0 || s.progress.value > 100 {
        return Fail(DecodeError("progress", InvalidPayload));
      }
    }
    if s.reasonCode != "" && s.reasonCode !in REASON_CODES {
      return Fail(DecodeError("reason_code", InvalidPayload));
    }
    if s.state == "failed" || s.state == "rolled_back" {
      if s.reasonCode == "" {
        return Fail(DecodeError("reason_code", MissingField));
      }
    } else if s.reasonCode != "" {
      return Fail(DecodeError("reason_code", InvalidPayload));
    }
    r := Pass;
  }

  /**
    What the runtime guarantees of every status it sends, whatever it was asked to do and whatever its
    own version text is.
   */
  predicate Sound(st: Status) {
    && (st.progress.Some? ==> st.state == Downloading && 0 <= st.progress.value <= 100)
    && (st.reason.Some? <==> st.state in {Failed, RolledBack})
  }

  lemma StateNames(s: Stage)
    ensures StateName(s) in STATES
    ensures StateName(s) == "downloading" <==> s == Downloading
    ensures StateName(s) == "failed" <==> s == Failed
    ensures StateName(s) == "rolled_back" <==> s == RolledBack
  {
    assert "downloading"[0] == 'd' && "failed"[0] == 'f';
    var name := StateName(s);
    match s
    case Downloading => assert name == STATES[0];
    case Verifying => assert name == STATES[1] && name[0] == 'v';
    case Installing => assert name == STATES[2] && name[0] == 'i';
    case Restarting => assert name == STATES[3] && name[2] == 's';
    case Failed => assert name == STATES[4];
    case RolledBack => assert name == STATES[5] && name[0] == 'r';
  }

  lemma ReasonCodes(r: Reason)
    ensures ReasonCode(r) in REASON_CODES && ReasonCode(r) != ""
  {
    var i := match r
      case DownloadFailed => 0
      case ChecksumMismatch => 1
      case SmokeTestFailed => 2
      case NoWritePermission => 3
      case ReplaceFailed => 4
      case ExecFailed => 5
      case NotConnectedAfterUpgrade => 6
      case PlatformUnsupported => 7
      case ArtifactMissing => 8;
    assert ReasonCode(r) == REASON_CODES[i];
  }

  /**
    A sound status is accepted exactly when its request id is decimal, its target is a version, and the
    version it comes from is left out or is one.
   */
  lemma SoundStatusAccepted(st: Status)
    requires Sound(st)
    ensures ValidateStatus(Encode(st)).Pass? <==>
      && IsDecimalId(st.requestId) && Semver.IsSemver(st.targetVersion)
      && (st.fromVersion == "" || Semver.IsSemver(st.fromVersion))
  {
    StateNames(st.state);
    if st.reason.Some? {
      ReasonCodes(st.reason.value);
    }
  }
}
