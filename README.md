# rustyfetch banner choice, in Dafny

rustyfetch is a neofetch-style program. It prints an ASCII-art banner for the
running Linux distribution, then a few system fields. This project models the
only decision the program makes: which banner is shown.

- `Ascii` and `Search` (`text.dfy`) model the two Rust `str` operations the decision uses.
  `to_lowercase` is modelled over ASCII letters. `contains` is a substring search, proved
  equal to an "occurs at some index" definition.
- `Distro` (`banner.dfy`) models `src/main.rs`:
  - the alias table `ARCH_BASED_DISTROS` and `is_distro_arch_based`;
  - the `if / else if / else` chain of `main`, lifted into the pure, total function
    `Classify`. It returns a `Banner` tag (`Arch | Ubuntu | Unsupported`) instead of printing.

The contracts state each result through reference definitions that do not
lowercase whole strings: `EqualsIgnoringCase` compares character by character,
and `ContainsIgnoringCase` says some window of the name equals the pattern
ignoring case. The banner rule `BannerFor`, written once and used in the contracts of
`Classify`, `SelectBannerAsWritten` and `SelectBanner`, says: Arch exactly for aliases; Ubuntu
exactly for non-aliases that contain "ubuntu" in some case; Unsupported for
everything else. `Classify` has no requires, so every name gets exactly one of
the three tags.

Three facts about the code shape the model. It classifies the os-release
display NAME (src/main.rs:25), not the short ID. It looks for "ubuntu" as a
substring (src/main.rs:29). It has no branch for any other distribution, such
as Manjaro.

## Model

| member | source | states |
|---|---|---|
| `Ascii.LowerChar` | src/main.rs:9 | the per-character step of lowercasing: 'A'..'Z' go to 'a'..'z', every other character stays, and no capital is left |
| `Ascii.ToLower` | src/main.rs:9 | lowercasing keeps the length, lowercases each character in place, and leaves no capital letter |
| `Ascii.ToLowerIdempotent` | src/main.rs:9 | lowercasing twice gives the same result as lowercasing once |
| `Ascii.ToLowerEqualIff` | src/main.rs:9 | two strings have the same lowercase form exactly when they are equal ignoring case, character by character |
| `Search.Contains` | src/main.rs:29 | the substring test is true exactly when the pattern occurs at some index of the string |
| `Search.ContainsLowerIff` | src/main.rs:29 | searching the lowercased name for a lowercase pattern is exactly the case-insensitive substring test |
| `Distro.IsDistroArchBased` | src/main.rs:6-14 | arch-based exactly when the lowercased name equals "arch" or "arcolinux", i.e. when the name equals one of them ignoring case; so only names of length 4 or 9 pass |
| `Distro.ArchIgnoresCase` | src/main.rs:9 | names that agree ignoring case are both arch-based or both not |
| `Distro.ArchUpperCase` | src/main.rs:6-9 | "ARCH" is arch-based |
| `Distro.ArchTitleCase` | src/main.rs:6-9 | "Arch" is arch-based |
| `Distro.ArcoLinuxMixedCase` | src/main.rs:6-9 | "ArcoLinux" is arch-based |
| `Distro.ArchNotByPrefix` | src/main.rs:6-9 | membership is whole-string: an arch-based name followed by any non-empty text is not arch-based |
| `Distro.ArchLinuxNotArchBased` | src/main.rs:6-9 | the display name "Arch Linux" is not arch-based |
| `Distro.Classify` | src/main.rs:27-33 | Arch exactly for names equal to an alias ignoring case; Ubuntu exactly for other names containing "ubuntu" in any case; Unsupported exactly for the rest; total, one tag per name |
| `Distro.ArchTakesPriority` | src/main.rs:27-29 | an arch-based name is classified Arch whatever else it contains |
| `Distro.UbuntuAnywhere` | src/main.rs:29-30 | a name with any capitalisation of "ubuntu" at any position is classified Ubuntu, because no such name is an alias |
| `Distro.NoBNoUbuntu` | src/main.rs:29 | a name without the letter b in either case cannot contain "ubuntu" ignoring case |
| `Distro.ClassifyIgnoresCase` | src/main.rs:9-29 | names that agree ignoring case get the same banner |
| `Distro.ClassifyLowercased` | src/main.rs:9-29 | lowercasing the name first does not change the banner |
| `Distro.ArcoLinuxGetsArch` | src/main.rs:27-28 | "ArcoLinux" gets the Arch banner |
| `Distro.UbuntuGetsUbuntu` | src/main.rs:29-30 | "Ubuntu" gets the Ubuntu banner |
| `Distro.UbuntuVersionGetsUbuntu` | src/main.rs:29-30 | "UBUNTU 22.04" gets the Ubuntu banner |
| `Distro.KubuntuGetsUbuntu` | src/main.rs:29-30 | "Kubuntu" gets the Ubuntu banner (substring, not exact match) |
| `Distro.ArchLinuxUnsupported` | src/main.rs:27-33 | "Arch Linux" is Unsupported |
| `Distro.ManjaroUnsupported` | src/main.rs:27-33 | "Manjaro Linux" is Unsupported (there is no Manjaro branch) |
| `Distro.SelectBannerAsWritten` | src/main.rs:25-33 | as written, the banner depends only on the os-release NAME field, through the same three-way rule |
| `Distro.ArchLinuxUnsupportedAsWritten` | src/main.rs:25-33 | with Arch Linux's os-release (ID "arch", NAME "Arch Linux") the program prints the not-supported notice |
| `Distro.SelectBanner` | src/main.rs:6-33 | classifying the ID field instead: Arch exactly when the ID is an alias, then Ubuntu, then Unsupported |
| `Distro.ArchLinuxArchById` | src/main.rs:6-28 | by ID, Arch Linux gets the Arch banner |
| `Distro.UbuntuUbuntuById` | src/main.rs:25-30 | by ID, Ubuntu keeps the Ubuntu banner |

## Findings

| source | as written | input that shows it | evidently intended | confidence | as-written member | corrected member |
|---|---|---|---|---|---|---|
| src/main.rs:25 | the banner is chosen from the os-release display NAME, but the alias table holds short IDs such as "arch" | Arch Linux's os-release: ID "arch", NAME "Arch Linux"; the alias test fails and the not-supported notice is printed | choose the banner from the ID field: the table entry "arch" (src/main.rs:6) is Arch Linux's os-release ID and never its NAME, so as written that entry can never match Arch Linux | medium, not executed | `Distro.ArchLinuxUnsupportedAsWritten` | `Distro.SelectBanner` |

## Left out

- Uptime hours and minutes (src/main.rs:22-23): computed with `f64` division and `% 1.0`; floating point is not modelled.
- The `sysinfo` probe (`System::new`, `refresh_all`, `host_name`, `kernel_version`, `uptime`; src/main.rs:17-24): it queries the operating system through a library that is not part of this model.
- `get_distro` / `OsRelease::new` (src/main.rs:44-46): reading and parsing `/etc/os-release` is file I/O inside an external crate. The model takes the parsed ID and NAME as the fields of `OsRelease`.
- The `.unwrap()` calls on lines 21, 24 and 25: they panic when a foreign call fails. This partiality belongs to the foreign calls, so the model starts from their results.
- Output: the embedded ASCII art (`include_str!`), the `colored` styling, and the `println!` / `eprintln!` formatting (src/main.rs:28-41). The model returns only the banner tag. Each constructor of `Banner` notes its stream and colour.
- Ascii.ToLower: models Rust's `to_lowercase` for ASCII letters only. Non-ASCII characters pass through unchanged, whereas Rust applies full Unicode lowercasing (for example 'Ä' becomes 'ä'). By Unicode's case tables this should never change a banner. Only two non-ASCII characters lowercase to anything that contains ASCII: U+212A KELVIN SIGN, which becomes 'k', and U+0130, which becomes 'i' followed by U+0307. Neither 'k' nor the pair "i" + U+0307 can complete "arch", "arcolinux" or "ubuntu". "arcolinux" does contain an 'i', but U+0307 would then follow that 'i', so the whole name still could not equal the entry. This argument comes from the tables; it is not proved in the model.
- Determinism of `Classify` is not a separate lemma: it holds because `Classify` is a Dafny function.
