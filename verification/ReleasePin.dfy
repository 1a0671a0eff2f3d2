/** Sparkplane release pins: which are valid, what they verify, and the directory that names one. */
module ReleasePin {
  import opened Basics
  import opened Text

  type Bytes = seq<nat>

  datatype Pin = Pin(version: string, target: string, sha256: string, publicKey: string)

  // The machine's architecture, and the cryptography and encodings the installer calls.
  datatype Trust = Trust(
    arch: string,
    keyParses: string -> bool,
    signed: (string, Bytes, string) -> bool,
    sha256: Bytes -> string,
    utf8: Bytes -> Option<string>,
    asBytes: string -> Bytes,
    toJson: Pin -> Bytes,
    fromJson: Bytes -> Option<Pin>,
    speaksProtocol: Bytes -> bool)

  ghost predicate Lossless(t: Trust) {
    && (forall s :: t.utf8(t.asBytes(s)) == Some(s))
    && (forall p :: t.fromJson(t.toJson(p)) == Some(p))
  }

  const X86 := "x86_64-unknown-linux-gnu"
  const ARM := "aarch64-unknown-linux-gnu"

  predicate VersionChar(c: char) {
    'a' <= c <= 'z' || 'A' <= c <= 'Z' || '0' <= c <= '9' || c == '.' || c == '-'
  }

  predicate LowerHex(c: char) {
    '0' <= c <= '9' || 'a' <= c <= 'f'
  }

  predicate ValidPin(t: Trust, p: Pin) {
    && 0 < |p.version| < 80 && (forall i :: 0 <= i < |p.version| ==> VersionChar(p.version[i]))
    && (p.target == X86 || p.target == ARM)
    && StartsWith(p.target, t.arch)
    && |p.sha256| == 64 && (forall i :: 0 <= i < 64 ==> LowerHex(p.sha256[i]))
    && t.keyParses(p.publicKey)
  }

  function Directory(p: Pin): string {
    p.version + "-" + p.target + "-" + p.sha256
  }

  function Artifact(p: Pin): string {
    "sparkplane-" + p.target
  }

  // Digests the manifest lists for `artifact`.
  function Matches(lines: seq<string>, artifact: string): seq<string> {
    if lines == [] then []
    else
      var parts := SplitDoubleSpace(lines[0]);
      (if parts.Some? && parts.value.1 == artifact then [parts.value.0] else []) + Matches(lines[1..], artifact)
  }

  predicate Verify(t: Trust, p: Pin, manifest: Bytes, signature: string, binary: Bytes) {
    && ValidPin(t, p)
    && t.signed(p.publicKey, manifest, signature)
    && t.utf8(manifest).Some?
    && Matches(Lines(t.utf8(manifest).value), Artifact(p)) == [p.sha256]
    && t.sha256(binary) == p.sha256
  }

  // Where the parts of a directory name lie, counted from its end.
  lemma DirectoryParts(d: string, version: string, target: string, sha: string)
    requires d == version + "-" + target + "-" + sha && |sha| == 64
    ensures var end := |d| - 65;
            && |d| == |version| + |target| + 66
            && d[end + 1..] == sha
            && d[end - |target|..end] == target
            && d[..end - 1 - |target|] == version
  {
  }

  // No string ends in both target names.
  lemma TargetsDiffer(d: string, end: nat)
    requires 25 <= end <= |d|
    ensures d[end - 24..end] != X86 || d[end - 25..end] != ARM
  {
    assert X86[0] == 'x' && ARM[1] == 'a';
    assert d[end - 24..end][0] == d[end - 25..end][1];
  }

  /** The directory name of a valid pin determines version, target and digest (not the public key). */
  lemma DirectoryIsInjective(t: Trust, p: Pin, q: Pin)
    requires ValidPin(t, p) && ValidPin(t, q) && Directory(p) == Directory(q)
    ensures p.version == q.version && p.target == q.target && p.sha256 == q.sha256
  {
    PartsOf(t, p);
    PartsOf(t, q);
    TargetsDiffer(Directory(p), |Directory(p)| - 65);
    hide *;
  }

  // The parts of a valid directory name, by their places in it.
  lemma PartsOf(t: Trust, p: Pin)
    requires ValidPin(t, p)
    ensures var d, n := Directory(p), |p.target|;
            var end := |d| - 65;
            && 25 <= end && n < end && (p.target == X86 || p.target == ARM)
            && (p.target == X86 ==> d[end - 24..end] == X86) && (p.target == ARM ==> d[end - 25..end] == ARM)
            && d[end + 1..] == p.sha256 && d[..end - 1 - n] == p.version
  {
    assert |X86| == 24 && |ARM| == 25;
    DirectoryParts(Directory(p), p.version, p.target, p.sha256);
    hide X86, ARM, Directory;
  }

  lemma DirectoryIsLong(t: Trust, p: Pin)
    requires ValidPin(t, p)
    ensures |Directory(p)| >= 91
  {
  }
}
