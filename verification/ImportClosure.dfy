/** The files a built page preloads: a walk of Vite's manifest from a chunk
    through everything it imports, over a graph that may have cycles, sharing one
    list of the files found so far. */
module ImportClosure {
  /** A chunk of the manifest: its file, and the keys of the chunks it imports. */
  datatype Chunk = Chunk(file: string, imports: seq<string>)

  type Manifest = map<string, Chunk>

  /** Every import names a chunk. */
  ghost predicate Closed(m: Manifest) {
    forall key :: key in m ==> AllIn(m, m[key].imports)
  }

  ghost predicate AllIn(m: Manifest, keys: seq<string>) {
    forall i :: 0 <= i < |keys| ==> keys[i] in m
  }

  ghost function FilesOf(m: Manifest): set<string> {
    set key | key in m :: m[key].file
  }

  ghost function Elems(files: seq<string>): set<string> {
    set i | 0 <= i < |files| :: files[i]
  }

  ghost predicate Distinct(files: seq<string>) {
    forall i, j :: 0 <= i < j < |files| ==> files[i] != files[j]
  }

  /** Visits `todo` and all below it, with `into` found already. */
  ghost function Visit(m: Manifest, todo: seq<string>, into: seq<string>): (found: seq<string>)
    requires Closed(m) && AllIn(m, todo)
    ensures into <= found
    decreases FilesOf(m) - Elems(into), |todo|
  {
    if todo == [] then into
    else
      var file := m[todo[0]].file;
      if file in into then Visit(m, todo[1..], into)
      else
        assert Elems(into + [file]) == Elems(into) + {file} by { ElemsMore(into, file); }
        assert file in FilesOf(m);
        var below := Visit(m, m[todo[0]].imports, into + [file]);
        assert file in Elems(below) && Elems(into) <= Elems(below) by { ElemsPrefix(into + [file], below); }
        Visit(m, todo[1..], below)
  }

  lemma ElemsMore(files: seq<string>, file: string)
    ensures Elems(files + [file]) == Elems(files) + {file}
  {
    var more := files + [file];
    assert more[|files|] == file;
    forall f | f in Elems(files) ensures f in Elems(more) {
      var i :| 0 <= i < |files| && files[i] == f;
      assert more[i] == f;
    }
  }

  lemma ElemsPrefix(files: seq<string>, more: seq<string>)
    requires files <= more
    ensures Elems(files) <= Elems(more)
  {
    forall f | f in Elems(files) ensures f in Elems(more) {
      var i :| 0 <= i < |files| && files[i] == f;
      assert more[i] == f;
    }
  }

  /** The list of files one walk fills, shared by its recursive calls. */
  class Walk {
    const manifest: Manifest
    var files: seq<string>

    constructor (manifest: Manifest, seeded: seq<string>)
      ensures this.manifest == manifest && files == seeded
    {
      this.manifest := manifest;
      files := seeded;
    }

    /** Every chunk `key` imports, and what those import. */
    method Imports(key: string)
      requires Closed(manifest) && key in manifest
      modifies this
      ensures files == Visit(manifest, manifest[key].imports, old(files))
      decreases FilesOf(manifest) - Elems(files)
    {
      var todo := manifest[key].imports;
      for i := 0 to |todo|
        invariant AllIn(manifest, todo[i..]) && old(files) <= files
        invariant Visit(manifest, todo[i..], files) == Visit(manifest, todo, old(files))
      {
        assert todo[i..][1..] == todo[i + 1..];
        var file := manifest[todo[i]].file;
        if file !in files {
          ghost var before := files;
          files := files + [file];
          ElemsMore(before, file);
          ElemsPrefix(old(files), before);
          assert file in FilesOf(manifest);
          Imports(todo[i]);
        }
      }
    }
  }

  /** The files a page asks for with a chunk's script. */
  method Row(manifest: Manifest, key: string, seeded: seq<string>) returns (files: seq<string>)
    requires Closed(manifest) && key in manifest
    ensures files == Visit(manifest, manifest[key].imports, seeded)
  {
    var walk := new Walk(manifest, seeded);
    walk.Imports(key);
    files := walk.files;
  }

  // ---- Reachability ----

  /** `b` is `n` imports away from `a`. */
  ghost predicate Steps(m: Manifest, a: string, b: string, n: nat)
    requires Closed(m) && a in m
    decreases n
  {
    && n > 0
    && exists i :: 0 <= i < |m[a].imports| &&
         (if n == 1 then m[a].imports[i] == b else Steps(m, m[a].imports[i], b, n - 1))
  }

  ghost predicate Reaches(m: Manifest, a: string, b: string)
    requires Closed(m) && a in m
  {
    exists n: nat :: Steps(m, a, b, n)
  }

  /** The file belongs to a chunk one or more imports away from `a`. */
  ghost predicate Needed(m: Manifest, a: string, file: string)
    requires Closed(m) && a in m
  {
    exists b :: b in m && Reaches(m, a, b) && m[b].file == file
  }

  ghost predicate DistinctFiles(m: Manifest) {
    forall a, b :: a in m && b in m && m[a].file == m[b].file ==> a == b
  }

  lemma ImportNeeded(m: Manifest, a: string, i: nat)
    requires Closed(m) && a in m && i < |m[a].imports|
    ensures Needed(m, a, m[m[a].imports[i]].file)
  {
    assert Steps(m, a, m[a].imports[i], 1);
    assert Reaches(m, a, m[a].imports[i]);
  }

  lemma NeededBelow(m: Manifest, a: string, i: nat, file: string)
    requires Closed(m) && a in m && i < |m[a].imports|
    requires Needed(m, m[a].imports[i], file)
    ensures Needed(m, a, file)
  {
    var b :| b in m && Reaches(m, m[a].imports[i], b) && m[b].file == file;
    var n: nat :| Steps(m, m[a].imports[i], b, n);
    assert Steps(m, a, b, n + 1);
    assert Reaches(m, a, b);
  }

  /** Nothing is listed that isn't needed, and nothing twice. */
  lemma {:induction false} VisitSound(m: Manifest, a: string, from: nat, into: seq<string>)
    requires Closed(m) && a in m && from <= |m[a].imports|
    ensures var found := Visit(m, m[a].imports[from..], into);
            && (forall file :: file in found ==> file in into || Needed(m, a, file))
            && (Distinct(into) ==> Distinct(found))
    decreases FilesOf(m) - Elems(into), |m[a].imports| - from
  {
    var todo := m[a].imports[from..];
    if todo != [] {
      assert todo[1..] == m[a].imports[from + 1..];
      var b := todo[0];
      var file := m[b].file;
      assert b == m[a].imports[from];
      if file in into {
        VisitSound(m, a, from + 1, into);
      } else {
        ElemsMore(into, file);
        assert file in FilesOf(m) && file !in Elems(into);
        var below := Visit(m, m[b].imports, into + [file]);
        assert m[b].imports[0..] == m[b].imports;
        VisitSound(m, b, 0, into + [file]);
        ElemsPrefix(into + [file], below);
        VisitSound(m, a, from + 1, below);
        ImportNeeded(m, a, from);
        forall f | f in below ensures f in into || Needed(m, a, f) {
          if f !in into && f != file { NeededBelow(m, a, from, f); }
        }
      }
    }
  }

  /** What a chunk imports is all listed. */
  ghost predicate Done(m: Manifest, key: string, found: seq<string>)
    requires Closed(m) && key in m
  {
    forall i :: 0 <= i < |m[key].imports| ==> m[m[key].imports[i]].file in found
  }

  /** A walk lists what it visits, and with a file for each chunk leaves nothing
      it adds half done. */
  lemma {:induction false} VisitComplete(m: Manifest, todo: seq<string>, into: seq<string>)
    requires Closed(m) && AllIn(m, todo) && DistinctFiles(m)
    ensures var found := Visit(m, todo, into);
            && (forall i :: 0 <= i < |todo| ==> m[todo[i]].file in found)
            && (forall key :: key in m && m[key].file in found && m[key].file !in into ==> Done(m, key, found))
    decreases FilesOf(m) - Elems(into), |todo|
  {
    if todo != [] {
      var file := m[todo[0]].file;
      if file in into {
        VisitComplete(m, todo[1..], into);
      } else {
        ElemsMore(into, file);
        assert file in FilesOf(m) && file !in Elems(into);
        var below := Visit(m, m[todo[0]].imports, into + [file]);
        VisitComplete(m, m[todo[0]].imports, into + [file]);
        ElemsPrefix(into + [file], below);
        VisitComplete(m, todo[1..], below);
        var found := Visit(m, todo, into);
        assert Done(m, todo[0], below);
        forall key | key in m && m[key].file in found && m[key].file !in into ensures Done(m, key, found) {
          if m[key].file in below {
            assert Done(m, key, below);
          }
        }
        forall i | 0 <= i < |todo| ensures m[todo[i]].file in found {
          if i > 0 { assert todo[1..][i - 1] == todo[i]; }
        }
      }
    }
  }

  /** Following imports never leaves a list in which every chunk is done. */
  lemma {:induction false} StaysInside(m: Manifest, a: string, b: string, n: nat, found: seq<string>)
    requires Closed(m) && a in m && b in m && Steps(m, a, b, n) && Done(m, a, found)
    requires forall key :: key in m && m[key].file in found ==> Done(m, key, found)
    ensures m[b].file in found
    decreases n
  {
    var i :| 0 <= i < |m[a].imports| && (if n == 1 then m[a].imports[i] == b else Steps(m, m[a].imports[i], b, n - 1));
    if n > 1 {
      StaysInside(m, m[a].imports[i], b, n - 1, found);
    }
  }

  /** An entry's row (nothing seeded) or an island's (its own file seeded): with a
      file of its own for each chunk, the walk lists exactly the seeded file and
      the files of every chunk one or more imports away, each once. */
  lemma RowIsClosure(m: Manifest, key: string, seeded: seq<string>)
    requires Closed(m) && key in m && DistinctFiles(m)
    requires seeded == [] || seeded == [m[key].file]
    ensures var files := Visit(m, m[key].imports, seeded);
            && Distinct(files)
            && forall file :: file in files <==> file in seeded || Needed(m, key, file)
  {
    var files := Visit(m, m[key].imports, seeded);
    assert m[key].imports[0..] == m[key].imports;
    VisitSound(m, key, 0, seeded);
    VisitComplete(m, m[key].imports, seeded);
    forall file | Needed(m, key, file) ensures file in files {
      var b :| b in m && Reaches(m, key, b) && m[b].file == file;
      var n: nat :| Steps(m, key, b, n);
      StaysInside(m, key, b, n, files);
    }
  }

  // ---- Chunks that share a file ----

  /** A naming of chunks' files under which the walk misses nothing, whatever
      imports what, for an entry or an island. */
  ghost predicate NeverMisses(names: map<string, string>) {
    forall m: Manifest, key :: Names(m, names) && Closed(m) && key in m ==>
      MissesNothing(m, key, []) && MissesNothing(m, key, [m[key].file])
  }

  ghost predicate Names(m: Manifest, names: map<string, string>) {
    m.Keys == names.Keys && forall key :: key in m ==> m[key].file == names[key]
  }

  ghost predicate MissesNothing(m: Manifest, key: string, seeded: seq<string>)
    requires Closed(m) && key in m
  {
    forall file :: Needed(m, key, file) ==> file in Visit(m, m[key].imports, seeded)
  }

  ghost predicate AllApart(names: map<string, string>) {
    forall a, b :: a in names && b in names && names[a] == names[b] ==> a == b
  }

  ghost predicate AllAlike(names: map<string, string>) {
    forall a, b :: a in names && b in names ==> names[a] == names[b]
  }

  /** `a` imports itself and `b`, which imports `c`; nothing else imports. */
  ghost function Fork(names: map<string, string>, a: string, b: string, c: string): Manifest {
    map key | key in names :: Chunk(names[key], if key == a then [a, b] else if key == b then [c] else [])
  }

  lemma ForkStops(names: map<string, string>, a: string, b: string, c: string)
    requires a in names && b in names && c in names && a != b && names[a] == names[b]
    ensures var m := Fork(names, a, b, c);
            && Closed(m) && m[a].imports == [a, b]
            && Visit(m, [a, b], []) == [names[a]] && Visit(m, [a, b], [names[a]]) == [names[a]]
  {
    var m := Fork(names, a, b, c);
    var f := names[a];
    assert Closed(m);
    assert [b][1..] == [] && [a, b][1..] == [b] && [] + [f] == [f];
    assert Visit(m, [b], [f]) == Visit(m, [], [f]) == [f];
    assert Visit(m, [a, b], [f]) == Visit(m, [b], [f]);
  }

  lemma ForkNeeds(names: map<string, string>, a: string, b: string, c: string)
    requires a in names && b in names && c in names && a != b
    ensures var m := Fork(names, a, b, c); Closed(m) && Needed(m, a, names[c])
  {
    var m := Fork(names, a, b, c);
    assert Closed(m);
    assert Steps(m, b, c, 1) by { assert m[b].imports[0] == c; }
    assert Steps(m, a, c, 2) by { assert m[a].imports[1] == b; }
    assert Reaches(m, a, c);
  }

  /** Of two chunks that share a file the walk follows one only, and misses what
      the other alone imports, whether or not the file was seeded. */
  lemma ForkMisses(names: map<string, string>, a: string, b: string, c: string)
    requires a in names && b in names && c in names && a != b
    requires names[a] == names[b] && names[c] != names[a]
    ensures var m := Fork(names, a, b, c);
            && Names(m, names) && Closed(m) && a in m
            && !MissesNothing(m, a, []) && !MissesNothing(m, a, [m[a].file])
  {
    ForkStops(names, a, b, c);
    ForkNeeds(names, a, b, c);
    assert Names(Fork(names, a, b, c), names);
    hide Visit, Needed, Closed, Fork, Names;
  }

  /** When two chunks share a file the walk stops at the second, and can miss what
      only it imports: it misses nothing, whatever the imports, if and only if no
      two chunks share a file (or there is one file in all). */
  lemma NeverMissesExactly(names: map<string, string>)
    ensures NeverMisses(names) <==> AllApart(names) || AllAlike(names)
  {
    if !AllApart(names) && !AllAlike(names) {
      var a, b :| a in names && b in names && names[a] == names[b] && a != b;
      var c :| c in names && names[c] != names[a];
      ForkMisses(names, a, b, c);
    }
    if AllApart(names) || AllAlike(names) {
      forall m: Manifest, key | Names(m, names) && Closed(m) && key in m
        ensures MissesNothing(m, key, []) && MissesNothing(m, key, [m[key].file])
      {
        if AllApart(names) {
          RowIsClosure(m, key, []);
          RowIsClosure(m, key, [m[key].file]);
        } else {
          AlikeMissesNothing(m, names, key);
        }
      }
    }
  }

  lemma AlikeMissesNothing(m: Manifest, names: map<string, string>, key: string)
    requires Names(m, names) && AllAlike(names) && Closed(m) && key in m
    ensures MissesNothing(m, key, []) && MissesNothing(m, key, [m[key].file])
  {
    var todo := m[key].imports;
    forall file | Needed(m, key, file) ensures file in Visit(m, todo, []) && file in Visit(m, todo, [m[key].file]) {
      var b :| b in m && Reaches(m, key, b) && m[b].file == file;
      var n: nat :| Steps(m, key, b, n);
      assert todo != [];
      assert m[todo[0]].file == file;
      var below := Visit(m, m[todo[0]].imports, [] + [file]);
      assert ([] + [file])[0] == file == below[0];
      assert Visit(m, todo, []) == Visit(m, todo[1..], below);
      assert Visit(m, todo, [])[0] == below[0];
      assert m[key].file == file && [m[key].file][0] == file;
      assert Visit(m, todo, [m[key].file])[0] == file;
    }
  }
}
