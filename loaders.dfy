// The string rules of the definition loaders in Code/Game/Game.cpp: the
// faction attribute and the two ways a shader path loses its directory.
module Loaders {
  import opened Wrappers
  import opened Definitions

  /** Faction attribute of the actor and projectile loaders. */
  function FactionFromString(s: string): (f: Faction)
    ensures f == Good <==> (s == "GOOD" || s == "Marine")
    ensures f == Evil <==> (s == "EVIL" || s == "Demon")
    ensures f == Neutral <==> !(s in {"GOOD", "Marine", "EVIL", "Demon"})
  {
    if s == "GOOD" || s == "Marine" then Good
    else if s == "EVIL" || s == "Demon" then Evil
    else Neutral
  }

  /** The attribute's default when it is absent. */
  const DefaultFactionString: string := "NEUTRAL"

  /** A missing faction attribute yields NEUTRAL. */
  lemma MissingFactionIsNeutral()
    ensures FactionFromString(DefaultFactionString) == Neutral
  {
  }

  const ShaderDirectory: string := "Data/Shaders/"

  /** `pat` occurs in `s` at position `k`. */
  predicate OccursAt(s: string, pat: string, k: int)
  {
    0 <= k && k + |pat| <= |s| && s[k..k + |pat|] == pat
  }

  /** `std::string::find` from position `from`: the first occurrence at or after it. */
  function FindFrom(s: string, pat: string, from: nat): (r: Option<nat>)
    ensures r.Some? ==> from <= r.value && OccursAt(s, pat, r.value)
    ensures r.Some? ==> forall j :: from <= j < r.value ==> !OccursAt(s, pat, j)
    ensures r.None? ==> forall j :: from <= j ==> !OccursAt(s, pat, j)
    decreases |s| - from
  {
    if from + |pat| > |s| then None
    else if s[from..from + |pat|] == pat then Some(from)
    else FindFrom(s, pat, from + 1)
  }

  /** `std::string::find`: the first occurrence of `pat` in `s`. */
  function Find(s: string, pat: string): (r: Option<nat>)
    ensures r.Some? ==> OccursAt(s, pat, r.value)
    ensures r.Some? ==> forall j :: 0 <= j < r.value ==> !OccursAt(s, pat, j)
    ensures r.None? <==> forall j :: 0 <= j ==> !OccursAt(s, pat, j)
  {
    FindFrom(s, pat, 0)
  }

  /** Map loader: erase the first occurrence of the shader directory, if any. */
  function StripMapShader(s: string): (r: string)
    ensures Find(s, ShaderDirectory).None? ==> r == s
    ensures Find(s, ShaderDirectory).Some? ==> |r| == |s| - |ShaderDirectory|
    ensures Find(s, ShaderDirectory).Some? ==> exists p ::
      && OccursAt(s, ShaderDirectory, p)
      && (forall j :: 0 <= j < p ==> !OccursAt(s, ShaderDirectory, j))
      && r == s[..p] + s[p + |ShaderDirectory|..]
  {
    match Find(s, ShaderDirectory)
    case None => s
    case Some(p) =>
      assert OccursAt(s, ShaderDirectory, p);
      s[..p] + s[p + |ShaderDirectory|..]
  }

  /** Why `substr` refused its argument. */
  datatype SubstrError = OutOfRange

  /**
   * Actor loader: `substr(13)` keeps everything after the first 13
   * characters whatever they are, and throws when the path is shorter.
   */
  function StripActorShader(s: string): (r: Result<string, SubstrError>)
    ensures r.Ok? <==> |s| >= |ShaderDirectory|
    ensures r.Ok? ==> |r.value| == |s| - |ShaderDirectory|
    ensures r.Ok? ==> forall i :: 0 <= i < |r.value| ==> r.value[i] == s[i + |ShaderDirectory|]
  {
    if |s| < |ShaderDirectory| then Err(OutOfRange) else Ok(s[|ShaderDirectory|..])
  }

  /** The actor loader's default path. */
  const DefaultActorShaderPath: string := "Data/Shaders/Default"

  /** A path that starts with the directory loses exactly that prefix in both loaders. */
  lemma {:induction false} LoadersAgreeOnPrefixedPaths(s: string)
    requires |s| >= |ShaderDirectory| && s[..|ShaderDirectory|] == ShaderDirectory
    ensures StripMapShader(s) == s[|ShaderDirectory|..]
    ensures StripActorShader(s) == Ok(s[|ShaderDirectory|..])
  {
    assert OccursAt(s, ShaderDirectory, 0);
    var r := Find(s, ShaderDirectory);
    assert r.Some?;
    assert r.value == 0;
  }

  /** "Data/Shaders/Default" becomes "Default" in both loaders. */
  lemma DefaultPathStripped()
    ensures StripMapShader(DefaultActorShaderPath) == "Default"
    ensures StripActorShader(DefaultActorShaderPath) == Ok("Default")
  {
    LoadersAgreeOnPrefixedPaths(DefaultActorShaderPath);
  }

  /** The loaders differ on a path with the directory in the middle. */
  lemma LoadersDisagreeInside()
    ensures StripMapShader("M/Data/Shaders/Lit") == "M/Lit"
    ensures StripActorShader("M/Data/Shaders/Lit") == Ok("s/Lit")
  {
    var s := "M/Data/Shaders/Lit";
    assert s[2..15] == ShaderDirectory;
    assert !OccursAt(s, ShaderDirectory, 0) by { assert s[0] != ShaderDirectory[0]; }
    assert !OccursAt(s, ShaderDirectory, 1) by { assert s[1] != ShaderDirectory[0]; }
    assert Find(s, ShaderDirectory) == Some(2);
    assert s[..2] + s[15..] == "M/Lit";
    assert s[13..] == "s/Lit";
  }

  /** A short path makes the actor loader throw while the map loader keeps it. */
  lemma ShortPathThrows()
    ensures StripActorShader("Lit") == Err(OutOfRange)
    ensures StripMapShader("Lit") == "Lit"
  {
    assert forall j :: 0 <= j ==> !OccursAt("Lit", ShaderDirectory, j);
  }
}
