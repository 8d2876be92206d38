/*
 * The default Conscrypt mode Robolectric picks from the system properties:
 * off on Apple-silicon Macs, on everywhere else.
 */
module ConscryptModeConfigurer {

  /** ConscryptMode.Mode. */
  datatype Mode = On | Off

  /** Lower case for the letters A-Z; every other character is kept. */
  function ToLowerChar(c: char): char
  {
    if 'A' <= c <= 'Z' then (c as int - 'A' as int + 'a' as int) as char else c
  }

  /** String.toLowerCase, character by character. */
  function ToLower(s: string): (r: string)
    ensures |r| == |s|
    ensures forall i :: 0 <= i < |s| ==> r[i] == ToLowerChar(s[i])
  {
    seq(|s|, i requires 0 <= i < |s| => ToLowerChar(s[i]))
  }

  /** String.contains: `part` occurs somewhere in s. */
  function Contains(s: string, part: string): bool
    decreases |s|
  {
    |part| <= |s| && (s[..|part|] == part || (s != [] && Contains(s[1..], part)))
  }

  /** `part` occurs in s starting at index i. */
  predicate OccursAt(s: string, part: string, i: int)
  {
    0 <= i <= |s| - |part| && s[i..i + |part|] == part
  }

  /** s contains `part` exactly when `part` starts at some index of s. */
  lemma {:induction false} ContainsAt(s: string, part: string)
    ensures Contains(s, part) <==> exists i :: OccursAt(s, part, i)
    decreases |s|
  {
    if |part| > |s| {
      assert forall i :: !OccursAt(s, part, i);
    } else if s == [] {
      assert OccursAt(s, part, 0);
    } else {
      ContainsAt(s[1..], part);
      forall j | 0 <= j <= |s| - 1 - |part|
        ensures OccursAt(s[1..], part, j) <==> OccursAt(s, part, j + 1)
      {
        assert s[1..][j..j + |part|] == s[j + 1..j + 1 + |part|];
      }
      if s[..|part|] == part {
        assert OccursAt(s, part, 0);
      } else if exists i :: OccursAt(s, part, i) {
        var i :| OccursAt(s, part, i);
        assert i != 0;
        assert OccursAt(s[1..], part, i - 1);
      }
    }
  }

  /** Properties.getProperty(key, default). */
  function GetProperty(properties: map<string, string>, key: string, default: string): string
  {
    if key in properties then properties[key] else default
  }

  /** defaultValue: OFF exactly on a Mac with an aarch64 processor. */
  function DefaultValue(properties: map<string, string>): Mode
  {
    var os := ToLower(GetProperty(properties, "os.name", ""));
    var arch := ToLower(GetProperty(properties, "os.arch", ""));
    if Contains(os, "mac") && "aarch64" == arch then Off else On
  }

  /**
   * The default is OFF exactly when "mac" occurs in the lowercased os.name
   * and the lowercased os.arch is "aarch64"; ON in every other case.
   */
  lemma DefaultValueOff(properties: map<string, string>)
    ensures DefaultValue(properties) == Off <==>
      var os := ToLower(GetProperty(properties, "os.name", ""));
      && (exists i :: OccursAt(os, "mac", i))
      && ToLower(GetProperty(properties, "os.arch", "")) == "aarch64"
    ensures DefaultValue(properties) != Off ==> DefaultValue(properties) == On
  {
    ContainsAt(ToLower(GetProperty(properties, "os.name", "")), "mac");
  }

  /** Properties whose os.name and os.arch agree up to case give the same default. */
  lemma DefaultValueIgnoresCase(p: map<string, string>, q: map<string, string>)
    requires ToLower(GetProperty(p, "os.name", "")) == ToLower(GetProperty(q, "os.name", ""))
    requires ToLower(GetProperty(p, "os.arch", "")) == ToLower(GetProperty(q, "os.arch", ""))
    ensures DefaultValue(p) == DefaultValue(q)
  {
  }

  /** "Mac OS X" on "AARCH64" turns Conscrypt off. */
  lemma DefaultValueAppleSilicon()
    ensures DefaultValue(map["os.name" := "Mac OS X", "os.arch" := "AARCH64"]) == Off
  {
    var p := map["os.name" := "Mac OS X", "os.arch" := "AARCH64"];
    assert GetProperty(p, "os.name", "") == "Mac OS X";
    assert GetProperty(p, "os.arch", "") == "AARCH64";
    var os, arch := ToLower("Mac OS X"), ToLower("AARCH64");
    assert os[0] == 'm' && os[1] == 'a' && os[2] == 'c';
    assert os[..3] == "mac";
    assert forall i :: 0 <= i < 7 ==> arch[i] == "aarch64"[i];
    assert arch == "aarch64";
    assert Contains(os, "mac");
  }

  /** Without os.name and os.arch the default is ON. */
  lemma DefaultValueWithoutProperties(properties: map<string, string>)
    requires "os.name" !in properties && "os.arch" !in properties
    ensures DefaultValue(properties) == On
  {
  }

  /** The architecture must equal "aarch64": "arm64" on a Mac keeps Conscrypt on. */
  lemma DefaultValueArm64()
    ensures DefaultValue(map["os.name" := "Mac OS X", "os.arch" := "arm64"]) == On
  {
    var p := map["os.name" := "Mac OS X", "os.arch" := "arm64"];
    assert |ToLower(GetProperty(p, "os.arch", ""))| == 5;
  }

  /** An os.name without "mac" keeps Conscrypt on whatever the architecture. */
  lemma DefaultValueLinux()
    ensures DefaultValue(map["os.name" := "Linux", "os.arch" := "aarch64"]) == On
  {
    var p := map["os.name" := "Linux", "os.arch" := "aarch64"];
    assert GetProperty(p, "os.name", "") == "Linux";
    var os := ToLower("Linux");
    assert os == "linux";
    ContainsAt(os, "mac");
    forall i | 0 <= i <= |os| - 3
      ensures !OccursAt(os, "mac", i)
    {
      assert os[i] != 'm';
      assert os[i..i + 3][0] == os[i];
    }
  }
}
