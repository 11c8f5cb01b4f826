/**
 * Architecture resolution: the host's reported CPU architecture is
 * lower-cased and searched for the tokens of two families; the arm family is
 * tried first.  `archName` in panel.freecloud.ltd/hysteria.js.
 */
module Architecture {
  import opened Wrappers
  import opened Text

  /** The two artifact suffixes the release publishes. */
  datatype Arch = Arm64 | Amd64

  function ArchString(a: Arch): string
  {
    match a
    case Arm64 => "arm64"
    case Amd64 => "amd64"
  }

  predicate HasArmToken(machine: string)
  {
    Contains(machine, "arm64") || Contains(machine, "aarch64")
  }

  predicate HasAmdToken(machine: string)
  {
    Contains(machine, "x64") || Contains(machine, "x86_64") || Contains(machine, "amd64")
  }

  /** `archName()`: `host` is the string `os.arch()` reports; None is the script's `null`. */
  function ArchName(host: string): Option<Arch>
  {
    var machine := Lower(host);
    if HasArmToken(machine) then Some(Arm64)
    else if HasAmdToken(machine) then Some(Amd64)
    else None
  }

  ghost predicate ArmMentioned(host: string)
  {
    ContainsIgnoringCase(host, "arm64") || ContainsIgnoringCase(host, "aarch64")
  }

  ghost predicate AmdMentioned(host: string)
  {
    ContainsIgnoringCase(host, "x64") || ContainsIgnoringCase(host, "x86_64") ||
    ContainsIgnoringCase(host, "amd64")
  }

  /**
   * The resolver against a case-insensitive reference search: arm64 exactly
   * when an arm token occurs (even if an amd token does too), amd64 exactly
   * when only amd tokens occur, nothing otherwise.
   */
  lemma ArchNameSpec(host: string)
    ensures ArchName(host) == Some(Arm64) <==> ArmMentioned(host)
    ensures ArchName(host) == Some(Amd64) <==> !ArmMentioned(host) && AmdMentioned(host)
    ensures ArchName(host) == None <==> !ArmMentioned(host) && !AmdMentioned(host)
  {
    ContainsLowerIffIgnoringCase(host, "arm64");
    ContainsLowerIffIgnoringCase(host, "aarch64");
    ContainsLowerIffIgnoringCase(host, "x64");
    ContainsLowerIffIgnoringCase(host, "x86_64");
    ContainsLowerIffIgnoringCase(host, "amd64");
  }

  /** Only the lower-cased text matters: resolving the lower-cased string gives the same answer. */
  lemma ArchNameIgnoresCase(host: string)
    ensures ArchName(Lower(host)) == ArchName(host)
  {
    LowerIdempotent(host);
  }

  /** Node.js reports `x64` on 64-bit Intel and AMD hosts: it resolves to amd64. */
  lemma ResolvesX64()
    ensures ArchName("x64") == Some(Amd64)
  {
    assert Lower("x64") == "x64";
    assert StartsWith("x64", "x64");
    ContainedCharsOccur("x64", "arm64");
    ContainedCharsOccur("x64", "aarch64");
    assert 'r' in "arm64" && 'r' in "aarch64" && 'r' !in "x64";
  }

  /** Any spelling of `aarch64` resolves to arm64. */
  lemma ResolvesAArch64()
    ensures ArchName("AArch64") == Some(Arm64)
  {
    assert Lower("AArch64") == "aarch64";
    assert StartsWith("aarch64", "aarch64");
  }

  /** 32-bit ARM (`arm`) is not supported: no token of either family occurs in it. */
  lemma RejectsArm()
    ensures ArchName("arm") == None
  {
    assert Lower("arm") == "arm";
    ContainedCharsOccur("arm", "arm64");
    ContainedCharsOccur("arm", "aarch64");
    ContainedCharsOccur("arm", "x64");
    ContainedCharsOccur("arm", "x86_64");
    ContainedCharsOccur("arm", "amd64");
    assert '6' in "arm64" && '6' in "aarch64" && '6' in "x64" && '6' in "x86_64" && '6' in "amd64";
    assert '6' !in "arm";
  }
}
