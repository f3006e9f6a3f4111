/** The OS classifier of `cloudinventario/platform.py`: case-insensitive
    patterns tried first-match-wins, with a RouterOS-on-Linux override taken
    from the description. */
module Platform {
  import opened Wrappers
  import opened Regex

  const OS_LINUX := "Linux"
  const OS_ROUTEROS := "RouterOS"
  const OS_WINDOWS := "Windows"
  const OS_VMWARE := "VMware"
  const OS_CISCO := "Cisco"
  const OS_OTHER := "Other"
  const ROUTEROS_LINUX := "RouterOS/Linux"

  /** The families `GetOsFamily` can answer. */
  const Families: set<string> := {OS_LINUX, OS_ROUTEROS, OS_WINDOWS, OS_VMWARE, OS_CISCO, OS_OTHER}

  /** The alternatives of the Linux pattern that carry no leading `.*`:
      `re.match` anchors them at the start of the string. */
  const LinuxDistros: seq<string> := ["Ubuntu", "Debian", "CentOS", "RedHat", "Alpine", "Gentoo", "ROCK"]

  predicate StartsWithDistro(s: string) {
    exists k :: 0 <= k < |LinuxDistros| && PrefixMatch(s, LinuxDistros[k], true)
  }

  /** `re_linux.match(s)` for `.*Linux|Ubuntu|Debian|CentOS|RedHat|Alpine|Gentoo|ROCK`. */
  predicate IsLinux(s: string) {
    MatchAnyThen(s, "Linux", true) || StartsWithDistro(s)
  }

  predicate IsRouterOS(s: string) {
    MatchAnyThen(s, "RouterOS", true)
  }

  predicate IsWindows(s: string) {
    MatchAnyThen(s, "Windows", true)
  }

  predicate IsVMware(s: string) {
    MatchAnyThen(s, "VMware", true)
  }

  predicate IsCisco(s: string) {
    MatchAnyThen(s, "Cisco", true)
  }

  /** `desc and re_routeros.match(desc)`: a non-empty description naming RouterOS. */
  predicate DescribesRouterOS(desc: Option<string>) {
    desc.Some? && |desc.value| > 0 && IsRouterOS(desc.value)
  }

  /** The RouterOS-on-Linux override both functions below share. */
  predicate RouterOSOnLinux(os: string, desc: Option<string>) {
    IsLinux(os) && DescribesRouterOS(desc)
  }

  /** `get_os_family(str, desc)`. */
  function GetOsFamily(os: string, desc: Option<string>): (r: string)
    ensures r in Families
  {
    if IsLinux(os) then
      if DescribesRouterOS(desc) then OS_ROUTEROS else OS_LINUX
    else if IsWindows(os) then OS_WINDOWS
    else if IsRouterOS(os) then OS_ROUTEROS
    else if IsVMware(os) then OS_VMWARE
    else if IsCisco(os) then OS_CISCO
    else OS_OTHER
  }

  /** `get_os(str, desc)`. */
  function GetOs(os: string, desc: Option<string>): string {
    if RouterOSOnLinux(os, desc) then ROUTEROS_LINUX else os
  }

  /** First match wins: each answer is justified by its own pattern and by
      every earlier pattern failing; "Other" means no pattern matched. */
  lemma FamilyPriority(os: string, desc: Option<string>)
    ensures GetOsFamily(os, desc) == OS_LINUX <==> IsLinux(os) && !DescribesRouterOS(desc)
    ensures GetOsFamily(os, desc) == OS_WINDOWS <==> !IsLinux(os) && IsWindows(os)
    ensures GetOsFamily(os, desc) == OS_ROUTEROS <==>
              RouterOSOnLinux(os, desc) || (!IsLinux(os) && !IsWindows(os) && IsRouterOS(os))
    ensures GetOsFamily(os, desc) == OS_VMWARE <==>
              !IsLinux(os) && !IsWindows(os) && !IsRouterOS(os) && IsVMware(os)
    ensures GetOsFamily(os, desc) == OS_CISCO <==>
              !IsLinux(os) && !IsWindows(os) && !IsRouterOS(os) && !IsVMware(os) && IsCisco(os)
    ensures GetOsFamily(os, desc) == OS_OTHER <==>
              !IsLinux(os) && !IsWindows(os) && !IsRouterOS(os) && !IsVMware(os) && !IsCisco(os)
  {
  }

  /** The description only matters for an OS string the Linux pattern accepts. */
  lemma DescriptionIgnoredUnlessLinux(os: string, d1: Option<string>, d2: Option<string>)
    requires !IsLinux(os)
    ensures GetOsFamily(os, d1) == GetOsFamily(os, d2)
    ensures GetOs(os, d1) == os && GetOs(os, d2) == os
  {
  }

  /** `get_os` changes its input only under the RouterOS override that makes
      `get_os_family` answer RouterOS, and then always to "RouterOS/Linux". */
  lemma GetOsRewritesOnlyOnOverride(os: string, desc: Option<string>)
    ensures GetOs(os, desc) != os ==> RouterOSOnLinux(os, desc)
    ensures RouterOSOnLinux(os, desc) ==>
              GetOs(os, desc) == ROUTEROS_LINUX && GetOsFamily(os, desc) == OS_ROUTEROS
  {
  }

  /** "RouterOS/Linux" itself passes the Linux pattern ("Linux" at position 9). */
  lemma RouterOSLinuxIsLinux()
    ensures IsLinux(ROUTEROS_LINUX)
  {
    var s := ROUTEROS_LINUX;
    assert s[9..] == "Linux";
    assert '\n' !in s[..9];
    OccurrenceFoundByMatchAnyThen(s, "Linux", true, 9);
  }

  /** Rewriting the OS label is idempotent for a fixed description, and the
      family computed from the rewritten label is the original family. */
  lemma GetOsIdempotent(os: string, desc: Option<string>)
    ensures GetOs(GetOs(os, desc), desc) == GetOs(os, desc)
    ensures GetOsFamily(GetOs(os, desc), desc) == GetOsFamily(os, desc)
  {
    if RouterOSOnLinux(os, desc) {
      RouterOSLinuxIsLinux();
    }
  }

  /** On a single line the Linux test is "contains linux, or starts with a
      distribution name", ignoring case; the other tests are "contains". */
  lemma SingleLineTests(s: string)
    requires '\n' !in s
    ensures IsLinux(s) <==> Occurs(s, "Linux", true) || StartsWithDistro(s)
    ensures IsRouterOS(s) <==> Occurs(s, "RouterOS", true)
    ensures IsWindows(s) <==> Occurs(s, "Windows", true)
    ensures IsVMware(s) <==> Occurs(s, "VMware", true)
    ensures IsCisco(s) <==> Occurs(s, "Cisco", true)
  {
    SingleLineMatchIsContains(s, "Linux", true);
    SingleLineMatchIsContains(s, "RouterOS", true);
    SingleLineMatchIsContains(s, "Windows", true);
    SingleLineMatchIsContains(s, "VMware", true);
    SingleLineMatchIsContains(s, "Cisco", true);
  }

  /** The worked examples: an Ubuntu host is Linux, unless its description
      names RouterOS, in which case it is RouterOS labelled "RouterOS/Linux". */
  lemma UbuntuExamples()
    ensures GetOsFamily("Ubuntu 20.04", None) == OS_LINUX
    ensures GetOs("Ubuntu 20.04", None) == "Ubuntu 20.04"
    ensures GetOsFamily("Ubuntu 20.04", Some("RouterOS v6")) == OS_ROUTEROS
    ensures GetOs("Ubuntu 20.04", Some("RouterOS v6")) == ROUTEROS_LINUX
  {
    assert PrefixMatch("Ubuntu 20.04", LinuxDistros[0], true);
    assert IsLinux("Ubuntu 20.04");
    assert PrefixMatch("RouterOS v6", "RouterOS", true);
    assert IsRouterOS("RouterOS v6");
  }
}
