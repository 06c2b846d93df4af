/**
 * `TestShaders.GetPath` of the test project: the file a test shader set is
 * read from, `<base>/Shaders/<set>.<stage4>`, where `stage4` is the first
 * four letters of the lower-cased stage name. No extension follows.
 */
module TestShaders {
  import opened Graphics
  import opened Paths

  /** `char.ToLowerInvariant` on the ASCII letters the stage names use. */
  function LowerChar(c: char): (l: char)
    ensures 'A' <= c <= 'Z' ==> l as int == c as int + 32
    ensures !('A' <= c <= 'Z') ==> l == c
  {
    if 'A' <= c <= 'Z' then (c as int + 32) as char else c
  }

  /** `string.ToLowerInvariant`, character by character. */
  function ToLower(s: string): (r: string)
    ensures |r| == |s|
    ensures forall i :: 0 <= i < |s| ==> r[i] == LowerChar(s[i])
  {
    seq(|s|, i requires 0 <= i < |s| => LowerChar(s[i]))
  }

  /** `stage.ToString().ToLowerInvariant().Substring(0, 4)`; every stage name has at least four letters. */
  function Stage4(stage: ShaderStage): (r: string)
    ensures |r| == 4
  {
    ToLower(StageName(stage))[..4]
  }

  /**
   * `GetPath(setName, stage)`: the base directory, `Shaders`, and
   * `setName + "." + stage4`, combined in that order. The path ends in
   * `<set>.<stage4>` with no extension after it, and with a base directory
   * ending in a separator and a relative set name it is exactly
   * `<base>Shaders/<set>.<stage4>`.
   */
  function GetPath(baseDirectory: string, setName: string, stage: ShaderStage): (p: string)
    ensures var file := setName + "." + Stage4(stage);
      |p| >= |file| && p[|p| - |file|..] == file
    ensures |baseDirectory| > 0 && baseDirectory[|baseDirectory| - 1] == Separator && !IsRooted(setName) ==>
      p == baseDirectory + "Shaders" + [Separator] + setName + "." + Stage4(stage)
  {
    var file := setName + "." + Stage4(stage);
    if |baseDirectory| > 0 && baseDirectory[|baseDirectory| - 1] == Separator && !IsRooted(setName) then
      assert file[0] == if setName == [] then '.' else setName[0];
      Combine3Joins(baseDirectory, "Shaders", file);
      Combine3(baseDirectory, "Shaders", file)
    else
      Combine3(baseDirectory, "Shaders", file)
  }

  /** The stages the tests load map to `vert`, `frag` and `comp`; the others to `geom` and `tess`. */
  lemma Stage4Names()
    ensures Stage4(Vertex) == "vert" && Stage4(Fragment) == "frag" && Stage4(Compute) == "comp"
    ensures Stage4(Geometry) == "geom"
    ensures Stage4(TessellationControl) == "tess" && Stage4(TessellationEvaluation) == "tess"
  {
    Stage4Letters(Vertex);
    Stage4Letters(Fragment);
    Stage4Letters(Compute);
    Stage4Letters(Geometry);
    Stage4Letters(TessellationControl);
    Stage4Letters(TessellationEvaluation);
  }

  /** `stage4` is the first four letters of the stage name, lower-cased one by one. */
  lemma Stage4Letters(stage: ShaderStage)
    ensures var n := StageName(stage);
      Stage4(stage) == [LowerChar(n[0]), LowerChar(n[1]), LowerChar(n[2]), LowerChar(n[3])]
  {
  }

  /** The two tessellation stages share one file name: the four letters cannot tell them apart. */
  lemma TessellationStagesShareAPath(baseDirectory: string, setName: string)
    ensures GetPath(baseDirectory, setName, TessellationControl) == GetPath(baseDirectory, setName, TessellationEvaluation)
  {
    Stage4Names();
  }
}
