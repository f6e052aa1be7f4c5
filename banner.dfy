/**
 * The banner choice of rustyfetch (src/main.rs): the Arch-family alias
 * table, the alias test `is_distro_arch_based`, and the `if / else if /
 * else` chain of `main`, lifted into the pure function `Classify` that
 * returns which banner is shown instead of printing it.
 */
module Distro {
  import opened Ascii
  import opened Search

  /** `ARCH_BASED_DISTROS`: the names that get the Arch banner, in lowercase. */
  const ArchBasedDistros: seq<string> := ["arch", "arcolinux"]

  /** The outcome of the chain: which banner `main` prints, if any. */
  datatype Banner =
    | Arch         // Arch ASCII art, bold green, on standard error
    | Ubuntu       // Ubuntu ASCII art, bold red, on standard error
    | Unsupported  // "Distro currently not supported!" on standard output

  /** Reference definition of the alias test: equal to a table entry, ignoring case. */
  ghost predicate IsArchAlias(distro: string) {
    EqualsIgnoringCase(distro, "arch") || EqualsIgnoringCase(distro, "arcolinux")
  }

  /**
   * `is_distro_arch_based`: the lowercased name is one of the table's
   * entries, as a whole string.
   */
  function IsDistroArchBased(distro: string): (b: bool)
    ensures b <==> ToLower(distro) == "arch" || ToLower(distro) == "arcolinux"
    ensures b <==> IsArchAlias(distro)
    ensures b ==> |distro| == 4 || |distro| == 9
  {
    ToLowerOfLower("arch");
    ToLowerOfLower("arcolinux");
    ToLowerEqualIff(distro, "arch");
    ToLowerEqualIff(distro, "arcolinux");
    ToLower(distro) in ArchBasedDistros
  }

  /**
   * Reference definition of the banner rule: `b` is the banner for `name`
   * when Arch is chosen exactly for aliases, Ubuntu exactly for the other
   * names that contain "ubuntu" ignoring case, and Unsupported exactly for
   * the rest.
   */
  ghost predicate BannerFor(name: string, b: Banner) {
    && (b == Arch <==> IsArchAlias(name))
    && (b == Ubuntu <==> !IsArchAlias(name) && ContainsIgnoringCase(name, "ubuntu"))
    && (b == Unsupported <==> !IsArchAlias(name) && !ContainsIgnoringCase(name, "ubuntu"))
  }

  /**
   * The chain of `main`: Arch when the alias test passes; otherwise Ubuntu
   * when the lowercased name contains "ubuntu" anywhere; otherwise
   * Unsupported. Total: every name gets exactly one banner.
   */
  function Classify(name: string): (r: Banner)
    ensures BannerFor(name, r)
  {
    ToLowerOfLower("ubuntu");
    ContainsLowerIff(name, "ubuntu");
    if IsDistroArchBased(name) then Arch
    else if Contains(ToLower(name), "ubuntu") then Ubuntu
    else Unsupported
  }

  /** The alias test ignores case. */
  lemma ArchIgnoresCase(s: string, t: string)
    requires EqualsIgnoringCase(s, t)
    ensures IsDistroArchBased(s) == IsDistroArchBased(t)
  {
  }

  /** Capitalisations of the table entries that count as arch-based. */
  lemma ArchUpperCase()
    ensures IsDistroArchBased("ARCH")
  {
  }

  lemma ArchTitleCase()
    ensures IsDistroArchBased("Arch")
  {
  }

  lemma ArcoLinuxMixedCase()
    ensures IsDistroArchBased("ArcoLinux")
  {
  }

  /**
   * The alias test is whole-string membership: lengthening an arch-based
   * name never leaves it arch-based, so "Arch Linux" and "archlinux" fail.
   */
  lemma ArchNotByPrefix(s: string, x: string)
    requires IsDistroArchBased(s)
    requires x != []
    ensures !IsDistroArchBased(s + x)
  {
    var t := s + x;
    if |s| == 4 {
      assert t[3] == s[3];
    }
  }

  /** The display name of Arch Linux itself is not an alias. */
  lemma ArchLinuxNotArchBased()
    ensures !IsDistroArchBased("Arch Linux")
  {
    ArchTitleCase();
    ArchNotByPrefix("Arch", " Linux");
  }

  /**
   * Case only matters through the two lowercasing tests, so names that agree
   * ignoring case get the same banner.
   */
  lemma ClassifyIgnoresCase(s: string, t: string)
    requires EqualsIgnoringCase(s, t)
    ensures Classify(s) == Classify(t)
  {
    ToLowerEqualIff(s, t);
    ToLowerOfLower("ubuntu");
    ContainsLowerIff(s, "ubuntu");
    ContainsLowerIff(t, "ubuntu");
  }

  /** Lowercasing the name first does not change the banner. */
  lemma ClassifyLowercased(s: string)
    ensures Classify(ToLower(s)) == Classify(s)
  {
    ToLowerIdempotent(s);
    ToLowerEqualIff(ToLower(s), s);
    ClassifyIgnoresCase(ToLower(s), s);
  }

  /**
   * Any capitalisation of "ubuntu", anywhere in the name, selects the
   * Ubuntu banner: no name that contains it is an Arch alias.
   */
  lemma UbuntuAnywhere(pre: string, u: string, post: string)
    requires EqualsIgnoringCase(u, "ubuntu")
    ensures Classify(pre + u + post) == Ubuntu
  {
    var name := pre + u + post;
    var k := |pre|;
    assert name[k..k + 6] == u;
    assert OccursIgnoringCaseAt(name, "ubuntu", k);
    if EqualsIgnoringCase(name, "arcolinux") {
      assert LowerChar(name[k]) == LowerChar(u[0]) == 'u';
    }
  }

  /** The Arch branch is tried first: an alias never reaches the Ubuntu test. */
  lemma ArchTakesPriority(s: string)
    requires IsDistroArchBased(s)
    ensures Classify(s) == Arch
  {
  }

  /** A name without the letter 'b' in either case cannot contain "ubuntu". */
  lemma NoBNoUbuntu(s: string)
    requires forall i :: 0 <= i < |s| ==> LowerChar(s[i]) != 'b'
    ensures !ContainsIgnoringCase(s, "ubuntu")
  {
    forall i: nat | i + 6 <= |s| ensures !OccursIgnoringCaseAt(s, "ubuntu", i) {
      assert s[i..i + 6][1] == s[i + 1];
    }
  }

  /** Names as they appear in os-release NAME fields. */
  lemma ArcoLinuxGetsArch()
    ensures Classify("ArcoLinux") == Arch
  {
    ArcoLinuxMixedCase();
  }

  lemma UbuntuGetsUbuntu()
    ensures Classify("Ubuntu") == Ubuntu
  {
    UbuntuAnywhere("", "Ubuntu", "");
  }

  lemma UbuntuVersionGetsUbuntu()
    ensures Classify("UBUNTU 22.04") == Ubuntu
  {
    var u := "UBUNTU";
    assert EqualsIgnoringCase(u, "ubuntu") by {
      assert LowerChar(u[0]) == 'u' && LowerChar(u[1]) == 'b' && LowerChar(u[2]) == 'u';
      assert LowerChar(u[3]) == 'n' && LowerChar(u[4]) == 't' && LowerChar(u[5]) == 'u';
    }
    assert "" + u + " 22.04" == "UBUNTU 22.04";
    UbuntuAnywhere("", u, " 22.04");
  }

  lemma KubuntuGetsUbuntu()
    ensures Classify("Kubuntu") == Ubuntu
  {
    UbuntuAnywhere("K", "ubuntu", "");
  }

  lemma ArchLinuxUnsupported()
    ensures Classify("Arch Linux") == Unsupported
  {
    ArchLinuxNotArchBased();
    NoBNoUbuntu("Arch Linux");
  }

  lemma ManjaroUnsupported()
    ensures Classify("Manjaro Linux") == Unsupported
  {
    NoBNoUbuntu("Manjaro Linux");
  }

  /** The two os-release fields that matter: ID (short, lowercase) and NAME (for display). */
  datatype OsRelease = OsRelease(id: string, name: string)

  /** The os-release fields of Arch Linux itself. */
  const ArchLinux: OsRelease := OsRelease("arch", "Arch Linux")

  /**
   * The banner `main` shows, as written: it classifies the display NAME
   * (`get_distro().unwrap().name`), and ID plays no part.
   */
  function SelectBannerAsWritten(release: OsRelease): (r: Banner)
    ensures BannerFor(release.name, r)
  {
    Classify(release.name)
  }

  /** As written, Arch Linux itself gets no Arch banner. */
  lemma ArchLinuxUnsupportedAsWritten()
    ensures SelectBannerAsWritten(ArchLinux) == Unsupported
  {
    ArchLinuxUnsupported();
  }

  /**
   * The banner chosen from the short ID, which is what the alias table
   * holds ("arch" is Arch Linux's ID, never its NAME).
   */
  function SelectBanner(release: OsRelease): (r: Banner)
    ensures BannerFor(release.id, r)
  {
    Classify(release.id)
  }

  /** By ID, Arch Linux gets the Arch banner. */
  lemma ArchLinuxArchById()
    ensures SelectBanner(ArchLinux) == Arch
  {
  }

  /** By ID, Ubuntu keeps its banner. */
  lemma UbuntuUbuntuById()
    ensures SelectBanner(OsRelease("ubuntu", "Ubuntu")) == Ubuntu
  {
    UbuntuAnywhere("", "ubuntu", "");
  }
}
