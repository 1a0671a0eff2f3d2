/** Release manifests: what verification demands of one, and what the installed release is known to be. */
module ReleaseManifest {
  import opened Basics
  import opened Text
  import opened ReleasePin
  import opened SparkplaneInstall

  // A manifest lists a digest and a path on each line, separated by two spaces.
  datatype Listing = Listing(digest: string, path: string)

  function Render(list: seq<Listing>): string {
    if list == [] then "" else list[0].digest + "  " + list[0].path + "\n" + Render(list[1..])
  }

  // No line breaks; in the digest every space is followed by something else.
  predicate Plain(l: Listing) {
    && '\n' !in l.digest && '\n' !in l.path && '\r' !in l.path
    && forall i :: 0 <= i < |l.digest| && l.digest[i] == ' ' ==> i + 1 < |l.digest| && l.digest[i + 1] != ' '
  }

  // The digests listed for a path, in order.
  function DigestsOf(list: seq<Listing>, path: string): seq<string> {
    if list == [] then []
    else (if list[0].path == path then [list[0].digest] else []) + DigestsOf(list[1..], path)
  }

  lemma {:induction false} SplitsAtSpaces(digest: string, path: string)
    requires forall i :: 0 <= i < |digest| && digest[i] == ' ' ==> i + 1 < |digest| && digest[i + 1] != ' '
    ensures SplitDoubleSpace(digest + "  " + path) == Some((digest, path))
  {
    var s := digest + "  " + path;
    if digest == "" {
      assert s[2..] == path;
    } else {
      SplitsAtSpaces(digest[1..], path);
      assert s[1..] == digest[1..] + "  " + path;
      assert [digest[0]] + digest[1..] == digest;
    }
  }

  lemma LineOf(l: Listing)
    requires Plain(l)
    ensures var line := l.digest + "  " + l.path;
            '\n' !in line && StripReturn(line) == line && SplitDoubleSpace(line) == Some((l.digest, l.path))
  {
    SplitsAtSpaces(l.digest, l.path);
    var line := l.digest + "  " + l.path;
    assert l.path != "" ==> line[|line| - 1] == l.path[|l.path| - 1];
    assert line[|l.digest| + 1] == ' ';
    hide SplitDoubleSpace;
  }

  /** The digests found for a path in a rendered manifest are those listed for it, in order. */
  lemma {:induction false} MatchesAreListed(list: seq<Listing>, path: string)
    requires forall i :: 0 <= i < |list| ==> Plain(list[i])
    ensures Matches(Lines(Render(list)), path) == DigestsOf(list, path)
  {
    hide Lines, StripReturn, SplitDoubleSpace, Plain;
    if list == [] {
      NoLines();
    } else {
      var line, rest := list[0].digest + "  " + list[0].path, Render(list[1..]);
      MatchesAreListed(list[1..], path);
      LineOf(list[0]);
      LinesStep(line, rest);
      assert Render(list) == line + "\n" + rest;
      hide Render;
      var lines := Lines(rest);
      assert ([line] + lines)[1..] == lines;
    }
  }

  lemma NoLines()
    ensures Lines("") == []
  {
  }

  // ----- verification -----

  // By ASCII codes: digits, letters, `-` and `.`; digits and `a` to `f`.
  predicate VersionCode(c: char) {
    var n := c as int;
    48 <= n <= 57 || 65 <= n <= 90 || 97 <= n <= 122 || n == 45 || n == 46
  }

  predicate HexCode(c: char) {
    var n := c as int;
    48 <= n <= 57 || 97 <= n <= 102
  }

  // A pin with a version, a supported target of this machine, a digest in lower-case hexadecimal and a key.
  ghost predicate WellFormedPin(t: Trust, p: Pin) {
    && 1 <= |p.version| <= 79 && (forall c :: c in p.version ==> VersionCode(c))
    && (p.target == "x86_64-unknown-linux-gnu" || p.target == "aarch64-unknown-linux-gnu")
    && t.arch <= p.target
    && |p.sha256| == 64 && (forall c :: c in p.sha256 ==> HexCode(c))
    && t.keyParses(p.publicKey)
  }

  lemma ValidPinIff(t: Trust, p: Pin)
    ensures ValidPin(t, p) <==> WellFormedPin(t, p)
  {
    CharsAreCodes(p.version);
    CharsAreCodes(p.sha256);
    hide VersionCode, HexCode, VersionChar, LowerHex;
  }

  lemma CharsAreCodes(s: string)
    ensures (forall i :: 0 <= i < |s| ==> VersionChar(s[i])) <==> forall c :: c in s ==> VersionCode(c)
    ensures (forall i :: 0 <= i < |s| ==> LowerHex(s[i])) <==> forall c :: c in s ==> HexCode(c)
  {
    forall i | 0 <= i < |s|
      ensures VersionChar(s[i]) <==> VersionCode(s[i])
      ensures LowerHex(s[i]) <==> HexCode(s[i])
      ensures s[i] in s
    {
    }
    hide VersionChar, LowerHex, VersionCode, HexCode;
  }

  /**
   A release verifies exactly when the pin is well formed, the manifest is signed under the pin's key and lists
   exactly the pin's digest for the target's artifact, and that is the digest of the binary.
   */
  lemma VerifyIff(t: Trust, p: Pin, list: seq<Listing>, manifest: Bytes, signature: string, binary: Bytes)
    requires (forall i :: 0 <= i < |list| ==> Plain(list[i])) && t.utf8(manifest) == Some(Render(list))
    ensures Verify(t, p, manifest, signature, binary)
       <==> && WellFormedPin(t, p) && t.signed(p.publicKey, manifest, signature)
            && DigestsOf(list, "sparkplane-" + p.target) == [p.sha256] && t.sha256(binary) == p.sha256
  {
    hide Matches, Lines, Render, DigestsOf, Plain, WellFormedPin, ValidPin;
    MatchesAreListed(list, Artifact(p));
    ValidPinIff(t, p);
  }

  /** On an empty root a release that verifies and speaks the protocol installs, and `current` names it. */
  lemma GenuineReleaseInstalls(t: Trust, j: Job, list: seq<Listing>)
    requires Lossless(t) && WellNamed(j) && WellFormedPin(t, j.pin)
    requires (forall i :: 0 <= i < |list| ==> Plain(list[i])) && t.utf8(j.manifest) == Some(Render(list))
    requires t.signed(j.pin.publicKey, j.manifest, j.signature) && t.speaksProtocol(j.binary)
    requires DigestsOf(list, "sparkplane-" + j.pin.target) == [j.pin.sha256] && t.sha256(j.binary) == j.pin.sha256
    ensures var (fs, ok) := Drive(t, EMPTY.fs, Proc(j, Begin));
            && ok && CURRENT in fs.links && fs.links[CURRENT] == j.pin.version + "-" + j.pin.target + "-" + j.pin.sha256
            && fs.links[CURRENT] in fs.dirs && Genuine(t, fs.links[CURRENT], fs.dirs[fs.links[CURRENT]])
            && fs.dirs[fs.links[CURRENT]]["sparkplane"] == j.binary
  {
    VerifyIff(t, j.pin, list, j.manifest, j.signature, j.binary);
    hide Verify, Drive, DigestsOf, Render, Plain, WellFormedPin, Genuine, Lossless, WellNamed, Complete;
    FirstInstall(t, j);
    var d := Directory(j.pin);
    CompleteIsGenuine(t, d, Drive(t, EMPTY.fs, Proc(j, Begin)).0.dirs[d]);
  }

  lemma FirstInstall(t: Trust, j: Job)
    requires Lossless(t) && WellNamed(j)
    requires Verify(t, j.pin, j.manifest, j.signature, j.binary) && t.speaksProtocol(j.binary)
    ensures var (fs, ok) := Drive(t, EMPTY.fs, Proc(j, Begin));
            var d := Directory(j.pin);
            && ok && CURRENT in fs.links && fs.links[CURRENT] == d && d in fs.dirs && Complete(t, d, fs.dirs[d])
            && BINARY in fs.dirs[d] && fs.dirs[d][BINARY] == j.binary
  {
    hide Verify, Drive, Complete, Directory, ValidPin, StageName;
    InstallOutcome(t, EMPTY.fs, j);
    VerifyNeedsValid(t, j);
    ReleaseIsNoStage(t, j.pin);
    assert ProcOk(t, EMPTY.fs, Proc(j, Begin));
    DriveKeepsFs(t, EMPTY.fs, Proc(j, Begin));
    FilesHaveBinary(t, j);
    hide Files, Lossless;
  }

  // ----- what is installed -----

  // A directory's files are a release: its receipt is a pin that names the directory, its manifest is signed under the
  // pin's key and, if it is rendered from a listing, lists the artifact once, with the digest of the binary.
  ghost predicate Genuine(t: Trust, d: string, files: map<string, Bytes>) {
    && "sparkplane" in files && "SHA256SUMS" in files && "SHA256SUMS.minisig" in files && "release.json" in files
    && t.fromJson(files["release.json"]).Some? && t.utf8(files["SHA256SUMS.minisig"]).Some?
    && var p := t.fromJson(files["release.json"]).value;
    && d == p.version + "-" + p.target + "-" + p.sha256
    && t.signed(p.publicKey, files["SHA256SUMS"], t.utf8(files["SHA256SUMS.minisig"]).value)
    && t.sha256(files["sparkplane"]) == p.sha256 && t.speaksProtocol(files["sparkplane"])
    && forall list: seq<Listing> ::
         (forall i :: 0 <= i < |list| ==> Plain(list[i])) && t.utf8(files["SHA256SUMS"]) == Some(Render(list)) ==>
           DigestsOf(list, "sparkplane-" + p.target) == [t.sha256(files["sparkplane"])]
  }

  lemma CompleteIsGenuine(t: Trust, d: string, files: map<string, Bytes>)
    requires Complete(t, d, files)
    ensures Genuine(t, d, files)
  {
    var p :| CompleteFor(t, d, files, p);
    forall list: seq<Listing> |
      (forall i :: 0 <= i < |list| ==> Plain(list[i])) && t.utf8(files[SUMS]) == Some(Render(list))
      ensures DigestsOf(list, Artifact(p)) == [p.sha256]
    {
      MatchesAreListed(list, Artifact(p));
    }
    hide Matches, Lines, Render, DigestsOf, Plain, ValidPin;
  }

  /** In every run of installers, with crashes, the release that `current` names is genuine. */
  lemma CurrentIsGenuine(t: Trust, actions: seq<Action>)
    requires Lossless(t)
    ensures var fs := Run(t, EMPTY, actions).fs;
            CURRENT in fs.links ==>
              fs.links[CURRENT] in fs.dirs && Genuine(t, fs.links[CURRENT], fs.dirs[fs.links[CURRENT]])
  {
    CurrentIsAlwaysComplete(t, actions);
    var fs := Run(t, EMPTY, actions).fs;
    hide Run, Complete, Genuine;
    if CURRENT in fs.links {
      CompleteIsGenuine(t, fs.links[CURRENT], fs.dirs[fs.links[CURRENT]]);
    }
  }
}
