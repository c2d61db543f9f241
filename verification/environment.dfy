/** the environment package: the software probes that report what a build machine
    has installed, and the registry they add themselves to at start-up.

    Each probe runs a command and post-processes its standard output; the
    command is left out, its outcome a parameter: None when it failed,
    Some(output) when it succeeded. A probe's answer is the Go pair
    (version, ok). */
module Environment {
  import opened Wrappers
  import opened Text

  datatype Software = Bash | Ubuntu | Python | Git | MacOS

  /** Name: the key a probe's version is stored under. */
  function Name(s: Software): (n: string)
    ensures |n| > 0
  {
    match s
    case Bash => "bash"
    case Ubuntu => "ubuntu"
    case Python => "python"
    case Git => "git"
    case MacOS => "macos"
  }

  /** Distinct probes report under distinct names. */
  lemma NamesDistinct(a: Software, b: Software)
    requires a != b
    ensures Name(a) != Name(b)
  {
  }

  const Failed: (string, bool) := ("", false)

  /** Bash.Version: the text before the first '(' as is, or the whole trimmed
      output when there is none. */
  function BashVersion(out: Option<string>): (r: (string, bool))
    ensures out.None? ==> r == Failed
    ensures out.Some? ==> r.1
    ensures out.Some? && '(' in out.value ==> '(' !in r.0 && HasPrefix(out.value, r.0 + "(")
    ensures out.Some? && '(' !in out.value ==> r.0 == TrimSpace(out.value)
  {
    match out
    case None => Failed
    case Some(o) =>
      var (semver, _, ok) := Cut(o, '(');
      if ok then
        assert o[..|semver + "("|] == semver + "(";
        (semver, true)
      else (TrimSpace(o), true)
  }

  /** Ubuntu.Version: the trimmed rest after "Release:"; other output fails. */
  function UbuntuVersion(out: Option<string>): (r: (string, bool))
    ensures out.None? || !HasPrefix(out.value, "Release:") ==> r == Failed
    ensures out.Some? && HasPrefix(out.value, "Release:") ==>
      r == (TrimSpace(out.value[|"Release:"|..]), true)
  {
    match out
    case None => Failed
    case Some(o) =>
      var (version, ok) := CutPrefix(o, "Release:");
      if ok then (TrimSpace(version), true) else Failed
  }

  /** Python.Version: the trimmed rest after "Python "; other output fails. */
  function PythonVersion(out: Option<string>): (r: (string, bool))
    ensures out.None? || !HasPrefix(out.value, "Python ") ==> r == Failed
    ensures out.Some? && HasPrefix(out.value, "Python ") ==>
      r == (TrimSpace(out.value[|"Python "|..]), true)
  {
    match out
    case None => Failed
    case Some(o) =>
      var (version, ok) := CutPrefix(o, "Python ");
      if ok then (TrimSpace(version), true) else Failed
  }

  /** Git.Version as written: the test on CutPrefix's flag is inverted, so
      genuine `git --version` output fails and anything else is reported,
      trimmed, as the version. */
  function GitVersionAsWritten(out: Option<string>): (r: (string, bool))
    ensures out.None? || HasPrefix(out.value, "git version ") ==> r == Failed
    ensures out.Some? && !HasPrefix(out.value, "git version ") ==> r == (TrimSpace(out.value), true)
  {
    match out
    case None => Failed
    case Some(o) =>
      var (version, ok) := CutPrefix(o, "git version ");
      if !ok then (TrimSpace(version), true) else Failed
  }

  /** Git.Version as evidently intended, in the shape of the Ubuntu and
      Python probes. */
  function GitVersion(out: Option<string>): (r: (string, bool))
    ensures out.None? || !HasPrefix(out.value, "git version ") ==> r == Failed
    ensures out.Some? && HasPrefix(out.value, "git version ") ==>
      r == (TrimSpace(out.value[|"git version "|..]), true)
  {
    match out
    case None => Failed
    case Some(o) =>
      var (version, ok) := CutPrefix(o, "git version ");
      if ok then (TrimSpace(version), true) else Failed
  }

  /** MacOS.Version: the trimmed output, even when blank. */
  function MacOSVersion(out: Option<string>): (r: (string, bool))
    ensures out.None? ==> r == Failed
    ensures out.Some? ==> r.1 && (|r.0| > 0 ==> !IsSpace(r.0[0]) && !IsSpace(r.0[|r.0| - 1]))
    ensures out.Some? ==> exists i, j :: (
      && 0 <= i <= j <= |out.value| && r.0 == out.value[i..j]
      && AllSpace(out.value[..i]) && AllSpace(out.value[j..]))
  {
    match out
    case None => Failed
    case Some(o) => (TrimSpace(o), true)
  }

  /** Software.Version for each probe, Git with its test as written: the
      genuine banner is refused, and any other output passes for a version. */
  function Version(s: Software, out: Option<string>): (r: (string, bool))
    ensures out.None? ==> r == Failed
    ensures s == Bash ==> r == BashVersion(out)
    ensures s == Ubuntu ==> r == UbuntuVersion(out)
    ensures s == Python ==> r == PythonVersion(out)
    ensures s == Git ==> r == GitVersionAsWritten(out)
    ensures s == MacOS ==> r == MacOSVersion(out)
    ensures s == Git && out.Some? ==> (r.1 <==> !HasPrefix(out.value, "git version "))
    ensures s in {Bash, MacOS} && out.Some? ==> r.1
  {
    match s
    case Bash => BashVersion(out)
    case Ubuntu => UbuntuVersion(out)
    case Python => PythonVersion(out)
    case Git => GitVersionAsWritten(out)
    case MacOS => MacOSVersion(out)
  }

  /** Bash keeps the text before '(' as is: "5.1.8(1)-release" gives "5.1.8". */
  lemma BashExample()
    ensures BashVersion(Some("5.1.8(1)-release\n")) == ("5.1.8", true)
  {
    assert "5.1.8(1)-release\n" == "5.1.8" + ['('] + "1)-release\n";
    CutUnique("5.1.8", "1)-release\n", '(');
  }

  /** lsb_release's "Release:" line, tab and newline trimmed. */
  lemma UbuntuExample()
    ensures UbuntuVersion(Some("Release:\t22.04\n")) == ("22.04", true)
  {
    var out := "Release:\t22.04\n";
    assert out == "Release:" + out[8..];
    assert out[8..] == "\t" + "22.04" + "\n";
    TrimSpaceOf("\t", "22.04", "\n");
  }

  lemma PythonExample()
    ensures PythonVersion(Some("Python 3.11.7\n")) == ("3.11.7", true)
  {
    var out := "Python 3.11.7\n";
    assert out == "Python " + out[7..];
    assert out[7..] == "" + "3.11.7" + "\n";
    TrimSpaceOf("", "3.11.7", "\n");
  }

  lemma GitExample()
    ensures GitVersion(Some("git version 2.33.0\n")) == ("2.33.0", true)
  {
    var out := "git version 2.33.0\n";
    assert out == "git version " + out[12..];
    assert out[12..] == "" + "2.33.0" + "\n";
    TrimSpaceOf("", "2.33.0", "\n");
  }

  lemma MacOSExample()
    ensures MacOSVersion(Some("14.2.1\n")) == ("14.2.1", true)
  {
    assert "14.2.1\n" == "" + "14.2.1" + "\n";
    TrimSpaceOf("", "14.2.1", "\n");
  }

  /** The inverted test: real git output is rejected, while unrelated output
      is accepted as a version. */
  lemma GitAsWrittenRejectsGit()
    ensures GitVersionAsWritten(Some("git version 2.33.0\n")) == Failed
  {
    var out := "git version 2.33.0\n";
    assert out[..12] == "git version ";
  }

  /** ... and a failure message from the shell passes for a version. */
  lemma GitAsWrittenAcceptsNoise()
    ensures GitVersionAsWritten(Some("command not found\n")) == ("command not found", true)
  {
    var out := "command not found\n";
    assert out[0] != "git version "[0];
    assert !HasPrefix(out, "git version ");
    assert out == "" + "command not found" + "\n";
    TrimSpaceOf("", "command not found", "\n");
  }

  /** The corrected probe accepts exactly the output the as-written one rejects
      (when the command ran). */
  lemma GitCorrectionSwapsAcceptance(out: string)
    ensures GitVersion(Some(out)).1 <==> !GitVersionAsWritten(Some(out)).1
  {
  }

  // ---- the registry ----

  datatype Registry = Registry(software: seq<Software>)

  /** The registry before any init function: empty. */
  const NilRegistry := Registry([])

  /** RegisterSoftware: appends, duplicates included. */
  function RegisterSoftware(reg: Registry, s: Software): (r: Registry)
    ensures |r.software| == |reg.software| + 1
    ensures r.software[..|reg.software|] == reg.software && r.software[|reg.software|] == s
  {
    Registry(reg.software + [s])
  }

  /** GetSoftwares: a copy of the list; as a value the copy equals the list. */
  function GetSoftwares(reg: Registry): (r: seq<Software>)
    ensures |r| == |reg.software| && forall i :: 0 <= i < |r| ==> r[i] == reg.software[i]
  {
    reg.software
  }

  /** Registering each of `ss` in turn. */
  function RegisterAll(reg: Registry, ss: seq<Software>): Registry
    decreases |ss|
  {
    if |ss| == 0 then reg else RegisterAll(RegisterSoftware(reg, ss[0]), ss[1..])
  }

  /** GetSoftwares lists every registration, earliest first, after what was
      already there. */
  lemma {:induction false} RegistrationOrder(reg: Registry, ss: seq<Software>)
    ensures GetSoftwares(RegisterAll(reg, ss)) == reg.software + ss
    decreases |ss|
  {
    if |ss| > 0 {
      RegistrationOrder(RegisterSoftware(reg, ss[0]), ss[1..]);
      assert reg.software + [ss[0]] + ss[1..] == reg.software + ss;
    }
  }

  /** The package's init functions run in file-name order: bash.go, git.go,
      macos.go, python.go, ubuntu.go. */
  const InitOrder := [Bash, Git, MacOS, Python, Ubuntu]

  lemma InitRegistry()
    ensures GetSoftwares(RegisterAll(NilRegistry, InitOrder)) == InitOrder
  {
    RegistrationOrder(NilRegistry, InitOrder);
  }
}
