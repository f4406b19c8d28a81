/** What a memory directory's manifest note says: the revision, the manifest's hash and every file. */
module ManifestNotes {
  import opened Text
  import opened MemoryMirror
  import opened MemorySync
  import opened MemorySyncConvergence

  function Row(f: File): string {
    "| " + f.path + " | " + f.digest + " | " + Decimal(f.size) + " |"
  }

  function RowsOf(sources: seq<Source>): (rows: seq<string>)
    ensures |rows| == |sources| && forall i :: 0 <= i < |sources| ==> rows[i] == Row(sources[i].file)
  {
    if sources == [] then [] else [Row(sources[0].file)] + RowsOf(sources[1..])
  }

  function FilesOf(sources: seq<Source>): (files: seq<File>)
    ensures |files| == |sources| && forall i :: 0 <= i < |sources| ==> files[i] == sources[i].file
  {
    if sources == [] then [] else [sources[0].file] + FilesOf(sources[1..])
  }

  lemma {:induction false} TableIsRows(sources: seq<Source>)
    ensures TableRows(sources) == Terminated(RowsOf(sources))
  {
    hide Decimal;
    if sources != [] {
      TableIsRows(sources[1..]);
      RowEnds(sources[0].file);
      assert RowsOf(sources)[1..] == RowsOf(sources[1..]);
    }
  }

  lemma RowEnds(f: File)
    ensures Row(f) + "\n" == "| " + f.path + " | " + f.digest + " | " + Decimal(f.size) + " |\n"
  {
    hide Decimal;
    assert " |" + "\n" == " |\n";
  }

  lemma LastWord(a: string, m: string, b: string, n: string)
    requires a != "" && a[|a| - 1] == ' ' && b != "" && b[|b| - 1] == ' '
    requires ' ' !in m && ' ' !in n && a + m == b + n
    ensures a == b && m == n
  {
    var s := a + m;
    assert s[|a|..] == m && s[|b|..] == n;
    assert s[|a| - 1] == ' ' && s[|b| - 1] == ' ';
    BlankBefore(s, |a|, |b|);
    BlankBefore(s, |b|, |a|);
    assert s[..|a|] == a && s[..|b|] == b;
  }

  lemma RowInjective(f: File, g: File)
    requires IsLowerHex(f.digest) && IsLowerHex(g.digest) && Row(f) == Row(g)
    ensures f == g
  {
    var m, n := Decimal(f.size), Decimal(g.size);
    assert ' ' !in f.digest && ' ' !in g.digest && ' ' !in m && ' ' !in n;
    var a, b := "| " + f.path + " | ", "| " + g.path + " | ";
    var c, d := a + f.digest + " | ", b + g.digest + " | ";
    assert Row(f) == c + m + " |" && Row(g) == d + n + " |";
    hide Decimal, IsLowerHex, Row;
    assert c + m == (c + m + " |")[..|c + m + " |"| - 2] && d + n == (d + n + " |")[..|d + n + " |"| - 2];
    LastWord(c, m, d, n);
    DecimalInjective(f.size, g.size);
    assert a + f.digest == c[..|c| - 3] && b + g.digest == d[..|d| - 3];
    LastWord(a, f.digest, b, g.digest);
    assert f.path == a[2..|a| - 3] && g.path == b[2..|b| - 3];
  }

  lemma RowIsPlain(f: File)
    requires PlainFile(f)
    ensures '\n' !in Row(f)
  {
    assert '\n' !in f.digest && '\n' !in Decimal(f.size);
  }

  lemma RowsArePlain(sources: seq<Source>)
    requires forall s :: s in sources ==> PlainFile(s.file)
    ensures forall row :: row in RowsOf(sources) ==> '\n' !in row
  {
    forall row | row in RowsOf(sources)
      ensures '\n' !in row
    {
      var i :| 0 <= i < |sources| && RowsOf(sources)[i] == row;
      RowIsPlain(sources[i].file);
    }
  }

  /** For paths without newlines the table determines every file's path, digest and size. */
  lemma TableInjective(a: seq<Source>, b: seq<Source>)
    requires (forall s :: s in a ==> PlainFile(s.file)) && (forall s :: s in b ==> PlainFile(s.file))
    requires TableRows(a) == TableRows(b)
    ensures FilesOf(a) == FilesOf(b)
  {
    hide TableRows, Row;
    TableIsRows(a);
    TableIsRows(b);
    RowsArePlain(a);
    RowsArePlain(b);
    SplitOnTerminated(RowsOf(a));
    SplitOnTerminated(RowsOf(b));
    assert RowsOf(a) == (RowsOf(a) + [""])[..|a|] && RowsOf(b) == (RowsOf(b) + [""])[..|b|];
    forall i | 0 <= i < |a|
      ensures a[i].file == b[i].file
    {
      assert RowsOf(a)[i] == RowsOf(b)[i];
      RowInjective(a[i].file, b[i].file);
    }
  }

  /** Two notes of one directory are the same if and only if they state the same revision, the same hash
      and the same files. */
  lemma NotesAgreeIff(cfg: Config, a: Directory, k: nat, b: Directory, l: nat)
    requires a.slug == b.slug && '\n' !in a.manifestHash && '\n' !in b.manifestHash
    requires (forall s :: s in a.sources ==> PlainFile(s.file)) && (forall s :: s in b.sources ==> PlainFile(s.file))
    ensures ManifestNote(cfg, a, k) == ManifestNote(cfg, b, l) <==>
              k == l && a.manifestHash == b.manifestHash && FilesOf(a.sources) == FilesOf(b.sources)
  {
    hide ManifestNote, NoteHead, Decimal, TableRows;
    NoteParts(cfg, a, k);
    NoteParts(cfg, b, l);
    TailParts(a);
    TailParts(b);
    var head := NoteHead(cfg, a.slug);
    if ManifestNote(cfg, a, k) == ManifestNote(cfg, b, l) {
      ManifestSaysRevision(cfg, a, k, b, l);
      var x, y := Decimal(k) + "\n" + NoteTail(a), Decimal(k) + "\n" + NoteTail(b);
      assert (head + x)[|head|..] == x && (head + y)[|head|..] == y;
      assert x[|Decimal(k)| + 1..] == NoteTail(a) && y[|Decimal(k)| + 1..] == NoteTail(b);
      SplitOnceAtFresh(a.manifestHash, "\n", TableRows(a.sources));
      SplitOnceAtFresh(b.manifestHash, "\n", TableRows(b.sources));
      TableInjective(a.sources, b.sources);
    } else if k == l && a.manifestHash == b.manifestHash && FilesOf(a.sources) == FilesOf(b.sources) {
      SameTable(a.sources, b.sources);
    }
  }

  lemma TailParts(d: Directory)
    ensures NoteTail(d)[24..] == d.manifestHash + "\n" + TableRows(d.sources)
    ensures NoteTail(d) == "munshi_manifest_sha256: " + (d.manifestHash + "\n" + TableRows(d.sources))
  {
    hide TableRows;
    assert NoteTail(d) == "munshi_manifest_sha256: " + (d.manifestHash + "\n" + TableRows(d.sources));
    hide NoteTail;
    assert |"munshi_manifest_sha256: "| == 24;
  }

  lemma {:induction false} SameTable(a: seq<Source>, b: seq<Source>)
    requires FilesOf(a) == FilesOf(b)
    ensures TableRows(a) == TableRows(b)
  {
    hide Row, TableRows;
    TableIsRows(a);
    TableIsRows(b);
    forall i | 0 <= i < |a|
      ensures RowsOf(a)[i] == RowsOf(b)[i]
    {
      assert FilesOf(a)[i] == FilesOf(b)[i];
    }
    assert RowsOf(a) == RowsOf(b);
  }
}
