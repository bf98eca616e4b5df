/** The development-channel manifest: decoding, shape, and the two comparisons an activation relies on. */
module ChannelManifest {
  import opened Results
  import opened Numbers
  import opened TextRules
  import opened JsonText
  import opened JsonMap

  const MAX_MANIFEST_BYTES: nat := 64 * 1024
  const ASB_REPOSITORY := "https://github.com/martin-beck/agent-systems-benchmark.git"
  const TUI_REPOSITORY := "https://github.com/martin-beck/asb-tui.git"
  const MAIN_REF := "refs/heads/main"

  datatype Manifest = Manifest(schemaVersion: u64, channel: string, developmentOnly: bool, asbRepository: string,
                               asbRef: string, asbCommit: string, asbTree: string, tuiRepository: string,
                               tuiRef: string, tuiCommit: string, tuiTree: string, executableSha256: string,
                               executableSize: u64, builtUnix: u64, warnings: seq<string>)

  datatype ManifestError = Unavailable | InvalidManifest | DigestMismatch | Stale

  const FIELDS: seq<string> :=
    ["schema_version", "channel", "development_only", "asb_repository", "asb_ref", "asb_source_commit",
     "asb_source_tree", "tui_repository", "tui_ref", "tui_source_commit", "tui_source_tree", "executable_sha256",
     "executable_size", "built_unix", "warnings"]

  predicate ValidShape(m: Manifest) {
    m.schemaVersion == 1 && m.channel == "dev" && m.developmentOnly && m.asbRepository == ASB_REPOSITORY
    && m.asbRef == MAIN_REF && m.tuiRepository == TUI_REPOSITORY && m.tuiRef == MAIN_REF && m.executableSize != 0
    && m.builtUnix != 0 && IsLowerHex(m.asbCommit, 40) && IsLowerHex(m.asbTree, 40) && IsLowerHex(m.tuiCommit, 40)
    && IsLowerHex(m.tuiTree, 40) && IsLowerHex(m.executableSha256, 64)
  }

  function ReadU64(o: Option<Json>): Option<u64> {
    var n := AsNat(o, U64_LIMIT);
    if n.Some? && n.value < U64_LIMIT then Some(n.value) else None
  }

  function ReadManifest(v: Json): Option<Manifest> {
    if Decode(FIELDS, v).None? then None
    else
      var f := Decode(FIELDS, v).value;
      var version, channel, dev := ReadU64(f[0]), AsString(f[1]), AsBool(f[2]);
      var asbRepository, asbRef, asbCommit, asbTree := AsString(f[3]), AsString(f[4]), AsString(f[5]), AsString(f[6]);
      var tuiRepository, tuiRef, tuiCommit, tuiTree := AsString(f[7]), AsString(f[8]), AsString(f[9]), AsString(f[10]);
      var digest, size, built, warnings := AsString(f[11]), ReadU64(f[12]), ReadU64(f[13]), AsStrings(f[14]);
      if version.Some? && channel.Some? && dev.Some? && asbRepository.Some? && asbRef.Some? && asbCommit.Some?
         && asbTree.Some? && tuiRepository.Some? && tuiRef.Some? && tuiCommit.Some? && tuiTree.Some? && digest.Some?
         && size.Some? && built.Some? && warnings.Some? then
        Some(Manifest(version.value, channel.value, dev.value, asbRepository.value, asbRef.value, asbCommit.value,
                      asbTree.value, tuiRepository.value, tuiRef.value, tuiCommit.value, tuiTree.value, digest.value,
                      size.value, built.value, warnings.value))
      else None
  }

  /** `consume`, after the file has been read: size, JSON, fields, shape. */
  function Consume(bytes: string, parse: string -> Option<Json>): Result<Manifest, ManifestError> {
    if bytes == "" || |bytes| > MAX_MANIFEST_BYTES then Err(InvalidManifest)
    else if parse(bytes).None? || ReadManifest(parse(bytes).value).None? then Err(InvalidManifest)
    else
      var m := ReadManifest(parse(bytes).value).value;
      if ValidShape(m) then Ok(m) else Err(InvalidManifest)
  }

  function ValidateCurrentMain(m: Manifest, asbCommit: string, asbTree: string, tuiCommit: string, tuiTree: string)
    : Option<ManifestError>
  {
    if m.asbCommit != asbCommit || m.asbTree != asbTree || m.tuiCommit != tuiCommit || m.tuiTree != tuiTree
    then Some(Stale) else None
  }

  function ValidateExecutable(m: Manifest, bytes: string, digest: string -> string): Option<ManifestError> {
    if m.executableSha256 != digest(bytes) || m.executableSize != |bytes| then Some(DigestMismatch) else None
  }
}
