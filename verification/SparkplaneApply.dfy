/** The decisions of `sy apply` about the Sparkplane release, around the installer. */
module SparkplaneApply {
  import opened Basics
  import opened ReleasePin
  import opened SparkplaneInstall
  import opened ReleaseManifest

  datatype Integration = Integration(enabled: bool, release: Option<Pin>)

  // The three assets as downloaded.
  datatype Assets = Assets(manifest: Bytes, signature: string, binary: Bytes)

  // The receipt `current` leads to; None when there is no such file.
  function CurrentReceipt(fs: Fs): Option<Bytes> {
    if CURRENT in fs.links && fs.links[CURRENT] in fs.dirs && RECEIPT in fs.dirs[fs.links[CURRENT]]
    then Some(fs.dirs[fs.links[CURRENT]][RECEIPT]) else None
  }

  // The installed release verifies against its own receipt and speaks the protocol.
  predicate Prepared(t: Trust, fs: Fs) {
    && CURRENT in fs.links && fs.links[CURRENT] in fs.dirs
    && var files := fs.dirs[fs.links[CURRENT]];
    && BINARY in files && SUMS in files && SIGNATURE in files && RECEIPT in files
    && t.fromJson(files[RECEIPT]).Some?
    && t.utf8(files[SIGNATURE]).Some?
    && Verify(t, t.fromJson(files[RECEIPT]).value, files[SUMS], t.utf8(files[SIGNATURE]).value, files[BINARY])
    && t.speaksProtocol(files[BINARY])
  }

  // The tree after `apply`, and whether it succeeded.
  function Applied(t: Trust, fs: Fs, config: Option<Integration>, dry: bool, fetched: Option<Assets>, stage: string,
                   link: string): (Fs, bool) {
    if config.None? || !config.value.enabled then (fs, true)
    else if config.value.release.None? then (fs, false)
    else
      var pin := config.value.release.value;
      var receipt := CurrentReceipt(fs);
      if !ValidPin(t, pin) then (fs, false)
      else if dry then (fs, true)
      else if receipt.Some? && t.fromJson(receipt.value).None? then (fs, false)
      else if receipt.Some? && t.fromJson(receipt.value) == Some(pin) then (fs, Prepared(t, fs))
      else if fetched.None? then (fs, false)
      else
        var a := fetched.value;
        Drive(t, fs, Proc(Job(pin, a.manifest, a.signature, a.binary, stage, link), Begin))
  }

  /** `apply`: skip, plan, check what is installed, or fetch and install. */
  method Apply(t: Trust, root: DataRoot, config: Option<Integration>, dry: bool, fetched: Option<Assets>,
               stage: string, link: string)
    returns (ok: bool)
    modifies root
    ensures (root.fs, ok) == Applied(t, old(root.fs), config, dry, fetched, stage, link)
  {
    hide Drive, Verify, ValidPin;
    if config.None? || !config.value.enabled {
      return true;
    }
    if config.value.release.None? {
      return false;
    }
    var pin := config.value.release.value;
    if !ValidPin(t, pin) {
      return false;
    }
    if dry {
      return true;
    }
    var receipt := CurrentReceipt(root.fs);
    if receipt.Some? {
      var installed := t.fromJson(receipt.value);
      if installed.None? {
        return false;
      }
      if installed.value == pin {
        ok := Prepared(t, root.fs);
        return;
      }
    }
    if fetched.None? {
      return false;
    }
    var a := fetched.value;
    ok := root.InstallVerified(t, Job(pin, a.manifest, a.signature, a.binary, stage, link));
  }

  /**
   An apply that fails, is a dry run or is disabled changes no link; one that succeeds otherwise changes `current`
   only, to the pin; and what verified before still does.
   */
  lemma ApplyOutcome(t: Trust, fs: Fs, config: Option<Integration>, dry: bool, fetched: Option<Assets>,
                     stage: string, link: string)
    requires Lossless(t) && FsOk(t, fs) && StageName(stage) && stage !in fs.dirs && link != CURRENT && link !in fs.links
    ensures var (fs', ok) := Applied(t, fs, config, dry, fetched, stage, link);
            var installs := ok && !dry && config.Some? && config.value.enabled;
            && FsOk(t, fs') && (dry ==> fs' == fs)
            && (installs ==> config.value.release.Some?)
            && fs'.links == if installs then fs.links[CURRENT := Directory(config.value.release.value)] else fs.links
  {
    hide Drive, Verify, ValidPin, Directory, StageName;
    if config.Some? && config.value.enabled && config.value.release.Some? && !dry
      && ValidPin(t, config.value.release.value) {
      var pin, receipt := config.value.release.value, CurrentReceipt(fs);
      if receipt.Some? && t.fromJson(receipt.value) == Some(pin) {
        assert Complete(t, fs.links[CURRENT], fs.dirs[fs.links[CURRENT]]);
        assert fs.links[CURRENT := fs.links[CURRENT]] == fs.links;
      } else if (receipt.Some? ==> t.fromJson(receipt.value).Some?) && fetched.Some? {
        var a := fetched.value;
        var j := Job(pin, a.manifest, a.signature, a.binary, stage, link);
        InstallOutcome(t, fs, j);
        ReleaseIsNoStage(t, pin);
        DriveKeepsFs(t, fs, Proc(j, Begin));
      }
    }
  }

  // `current` names a release whose receipt is this pin.
  ghost predicate IsInstalled(t: Trust, fs: Fs, pin: Pin) {
    && "current" in fs.links && fs.links["current"] in fs.dirs && "release.json" in fs.dirs[fs.links["current"]]
    && t.fromJson(fs.dirs[fs.links["current"]]["release.json"]) == Some(pin)
  }

  /**
   Apply succeeds exactly when it is disabled, or its pin is well formed and it is a dry run, or the pin is installed
   already, or its assets were fetched and can be installed; another pin being installed does not matter.
   */
  lemma ApplySucceedsIff(t: Trust, fs: Fs, config: Option<Integration>, dry: bool, fetched: Option<Assets>,
                         stage: string, link: string)
    requires Lossless(t) && FsOk(t, fs) && StageName(stage) && stage !in fs.dirs && link != CURRENT && link !in fs.links
    ensures Applied(t, fs, config, dry, fetched, stage, link).1
       <==> || config.None? || !config.value.enabled
            || (config.value.release.Some? && WellFormedPin(t, config.value.release.value)
                && var pin := config.value.release.value;
                   || dry || IsInstalled(t, fs, pin)
                   || (fetched.Some?
                       && var a := fetched.value;
                          Installable(t, fs, Job(pin, a.manifest, a.signature, a.binary, stage, link))))
  {
    hide Drive, Verify, ValidPin, WellFormedPin, Directory, StageName, Installable;
    if config.Some? && config.value.enabled && config.value.release.Some? {
      var pin, receipt := config.value.release.value, CurrentReceipt(fs);
      ValidPinIff(t, pin);
      CurrentIsSound(t, fs);
      if ValidPin(t, pin) && !dry && fetched.Some? {
        var a := fetched.value;
        InstallOutcome(t, fs, Job(pin, a.manifest, a.signature, a.binary, stage, link));
      }
    }
  }

  // In a sound tree the current release has a receipt that parses, and is prepared.
  lemma CurrentIsSound(t: Trust, fs: Fs)
    requires FsOk(t, fs)
    ensures CURRENT in fs.links ==>
              && CurrentReceipt(fs).Some? && t.fromJson(CurrentReceipt(fs).value).Some? && Prepared(t, fs)
  {
    hide Verify, Directory, StageName;
    if CURRENT in fs.links {
      assert Complete(t, fs.links[CURRENT], fs.dirs[fs.links[CURRENT]]);
    }
  }

  /**
   After a successful apply of an enabled pin, `current` is at that pin, and applying again succeeds, changes
   nothing and needs no download.
   */
  lemma ApplyIsIdempotent(t: Trust, fs: Fs, pin: Pin, fetched: Option<Assets>, stage: string, link: string,
                          again: Option<Assets>, stage': string, link': string)
    requires Lossless(t) && FsOk(t, fs) && StageName(stage) && stage !in fs.dirs && link != CURRENT && link !in fs.links
    requires Applied(t, fs, Some(Integration(true, Some(pin))), false, fetched, stage, link).1
    ensures var fs' := Applied(t, fs, Some(Integration(true, Some(pin))), false, fetched, stage, link).0;
            && CurrentReceipt(fs').Some? && t.fromJson(CurrentReceipt(fs').value) == Some(pin)
            && CURRENT in fs'.links && fs'.links[CURRENT] == Directory(pin)
            && Applied(t, fs', Some(Integration(true, Some(pin))), false, again, stage', link') == (fs', true)
  {
    hide Drive, Verify, ValidPin, Directory, StageName;
    var fs' := Applied(t, fs, Some(Integration(true, Some(pin))), false, fetched, stage, link).0;
    var receipt := CurrentReceipt(fs);
    if receipt.Some? && t.fromJson(receipt.value) == Some(pin) {
      assert Complete(t, fs.links[CURRENT], fs.dirs[fs.links[CURRENT]]);
    } else {
      var a := fetched.value;
      var j := Job(pin, a.manifest, a.signature, a.binary, stage, link);
      InstallOutcome(t, fs, j);
      VerifyNeedsValid(t, j);
      ReleaseIsNoStage(t, pin);
      assert ProcOk(t, fs, Proc(j, Begin));
      DriveKeepsFs(t, fs, Proc(j, Begin));
      assert t.fromJson(t.toJson(pin)) == Some(pin);
      assert Complete(t, Directory(pin), fs'.dirs[Directory(pin)]);
    }
  }
}
