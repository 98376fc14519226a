/** The mutable sinks the renderer writes to: a StringBuilder shared by the
    page builders, and the output folder as a map from file path to contents. */
module Output {
  import opened Text

  /** StringBuilder.AppendLine(s) appends s and a line break. */
  function Line(s: string): string {
    s + NewLine
  }

  class StringBuilder {
    var text: string

    constructor()
      ensures text == ""
    {
      text := "";
    }

    method Append(s: string)
      modifies this
      ensures text == old(text) + s
    {
      text := text + s;
    }

    method AppendLine(s: string)
      modifies this
      ensures text == old(text) + Line(s)
    {
      text := text + Line(s);
    }
  }

  /** Appending in two steps is appending the concatenation once. */
  lemma AppendAssoc<T>(a: seq<T>, b: seq<T>, c: seq<T>)
    ensures a + (b + c) == a + b + c
  {
  }

  /** The files of the output folder. Writing a file replaces any earlier
      contents at the same path; folders exist implicitly. */
  class FileSystem {
    var files: map<string, string>

    constructor()
      ensures files == map[]
    {
      files := map[];
    }

    /** File.WriteAllText. */
    method WriteAllText(path: string, contents: string)
      modifies this
      ensures files == old(files)[path := contents]
    {
      files := files[path := contents];
    }
  }

  /** The files after a sequence of writes, applied in order. */
  function ApplyWrites(files: map<string, string>, writes: seq<(string, string)>): (r: map<string, string>)
    ensures r.Keys == files.Keys + set k | 0 <= k < |writes| :: writes[k].0
    decreases |writes|
  {
    if writes == [] then files
    else
      var last := writes[|writes| - 1];
      var r := ApplyWrites(files, writes[..|writes| - 1])[last.0 := last.1];
      assert forall k :: 0 <= k < |writes| - 1 ==> writes[..|writes| - 1][k] == writes[k];
      r
  }

  lemma {:induction false} ApplyWritesAppend(files: map<string, string>, a: seq<(string, string)>, b: seq<(string, string)>)
    ensures ApplyWrites(files, a + b) == ApplyWrites(ApplyWrites(files, a), b)
    decreases |b|
  {
    if b == [] {
      assert a + b == a;
    } else {
      assert (a + b)[..|a + b| - 1] == a + b[..|b| - 1];
      ApplyWritesAppend(files, a, b[..|b| - 1]);
    }
  }

  /** The contents at a path are those of the last write to it, or the earlier
      contents when nothing was written there. */
  lemma {:induction false} ApplyWritesLast(files: map<string, string>, writes: seq<(string, string)>, path: string)
    ensures (forall k :: 0 <= k < |writes| ==> writes[k].0 != path) ==>
      (path in files ==> path in ApplyWrites(files, writes) && ApplyWrites(files, writes)[path] == files[path])
    ensures forall k :: 0 <= k < |writes| && writes[k].0 == path && (forall l :: k < l < |writes| ==> writes[l].0 != path) ==>
      ApplyWrites(files, writes)[path] == writes[k].1
    decreases |writes|
  {
    if writes != [] {
      var front := writes[..|writes| - 1];
      var last := writes[|writes| - 1];
      ApplyWritesLast(files, front, path);
      assert ApplyWrites(files, writes) == ApplyWrites(files, front)[last.0 := last.1];
      forall k | 0 <= k < |writes| && writes[k].0 == path && (forall l :: k < l < |writes| ==> writes[l].0 != path)
        ensures ApplyWrites(files, writes)[path] == writes[k].1
      {
        if k < |writes| - 1 {
          assert last.0 != path;
          assert front[k] == writes[k];
          assert forall l :: k < l < |front| ==> front[l] == writes[l];
          assert ApplyWrites(files, front)[path] == writes[k].1;
        }
      }
    }
  }
}
