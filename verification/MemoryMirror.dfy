/** Where a memory directory's files and its manifest note go in the vault, the manifest text whose
    hash detects changes, and the commit message of a synced revision. */
module MemoryMirror {
  import opened Wrappers
  import opened Text
  import opened Delivery

  // ----- the manifest

  datatype File = File(path: string, digest: string, size: u64)

  function ManifestLine(f: File): string {
    f.digest + "  " + (Decimal(f.size) + "  " + f.path)
  }

  function ManifestLines(files: seq<File>): (lines: seq<string>)
    ensures |lines| == |files| && forall i :: 0 <= i < |files| ==> lines[i] == ManifestLine(files[i])
  {
    if files == [] then [] else [ManifestLine(files[0])] + ManifestLines(files[1..])
  }

  /** The canonical serialization that `manifest_hash` hashes. */
  function Manifest(files: seq<File>): string {
    Terminated(ManifestLines(files))
  }

  method CanonicalManifest(files: seq<File>) returns (canonical: string)
    ensures canonical == Manifest(files)
  {
    canonical := "";
    hide Decimal, ManifestLine, Terminated;
    assert Manifest([]) == "" by { EmptyManifest(); }
    for i := 0 to |files|
      invariant canonical == Manifest(files[..i])
    {
      assert files[..i + 1] == files[..i] + [files[i]];
      ManifestSnoc(files[..i], files[i]);
      PushLine(canonical, files[i]);
      canonical := canonical + files[i].digest + "  " + Decimal(files[i].size) + "  " + files[i].path + "\n";
    }
    assert files[..|files|] == files;
  }

  lemma EmptyManifest()
    ensures Manifest([]) == ""
  {
  }

  lemma ManifestSnoc(files: seq<File>, f: File)
    ensures Manifest(files + [f]) == Manifest(files) + (ManifestLine(f) + "\n")
  {
    hide Decimal, ManifestLine, Terminated;
    assert ManifestLines(files + [f]) == ManifestLines(files) + [ManifestLine(f)];
    TerminatedAppend(ManifestLines(files), [ManifestLine(f)]);
    TerminatedOne(ManifestLine(f));
  }

  lemma PushLine(canonical: string, f: File)
    ensures canonical + f.digest + "  " + Decimal(f.size) + "  " + f.path + "\n" ==
            canonical + (ManifestLine(f) + "\n")
  {
    hide Decimal;
  }

  lemma TerminatedOne(line: string)
    ensures Terminated([line]) == line + "\n"
  {
    assert [line][1..] == [];
  }

  /** Digests are hexadecimal; a path holds a newline only on a filesystem that lets it. */
  predicate PlainFile(f: File) {
    IsLowerHex(f.digest) && '\n' !in f.path
  }

  lemma ManifestLineInjective(f: File, g: File)
    requires IsLowerHex(f.digest) && IsLowerHex(g.digest) && ManifestLine(f) == ManifestLine(g)
    ensures f == g
  {
    var m, n := Decimal(f.size), Decimal(g.size);
    assert ' ' !in f.digest && ' ' !in g.digest && ' ' !in m && ' ' !in n;
    assert ManifestLine(f) == f.digest + "  " + (m + "  " + f.path);
    assert ManifestLine(g) == g.digest + "  " + (n + "  " + g.path);
    hide Decimal, ManifestLine, IsLowerHex, SplitOnce;
    SplitOnceAtFresh(f.digest, "  ", m + "  " + f.path);
    SplitOnceAtFresh(g.digest, "  ", n + "  " + g.path);
    SplitOnceAtFresh(m, "  ", f.path);
    SplitOnceAtFresh(n, "  ", g.path);
    DecimalInjective(f.size, g.size);
  }

  lemma ManifestLineIsPlain(f: File)
    requires PlainFile(f)
    ensures '\n' !in ManifestLine(f)
  {
    assert '\n' !in f.digest && '\n' !in Decimal(f.size);
  }

  /** For paths without newlines the manifest determines every file's path, digest and size. */
  lemma ManifestInjective(files: seq<File>, others: seq<File>)
    requires forall f :: f in files || f in others ==> PlainFile(f)
    requires Manifest(files) == Manifest(others)
    ensures files == others
  {
    var a, b := ManifestLines(files), ManifestLines(others);
    forall line | line in a || line in b
      ensures '\n' !in line
    {
      if line in a {
        var i :| 0 <= i < |a| && a[i] == line;
        ManifestLineIsPlain(files[i]);
      } else {
        var i :| 0 <= i < |b| && b[i] == line;
        ManifestLineIsPlain(others[i]);
      }
    }
    SplitOnTerminated(a);
    SplitOnTerminated(b);
    assert a == (a + [""])[..|a|] && b == (b + [""])[..|b|];
    assert |a| == |b|;
    forall i | 0 <= i < |files|
      ensures files[i] == others[i]
    {
      assert files[i] in files && others[i] in others;
      ManifestLineInjective(files[i], others[i]);
    }
  }

  /** With a newline in a path it does not: one file can read as two. */
  lemma NewlinePathsCollide(digest: string)
    requires IsLowerHex(digest)
    ensures var one := [File("x\n" + digest + "  1  y", digest, 1)];
            var two := [File("x", digest, 1), File("y", digest, 1)];
            one != two && Manifest(one) == Manifest(two)
  {
    var x, y := File("x", digest, 1), File("y", digest, 1);
    var xy := File("x\n" + digest + "  1  y", digest, 1);
    assert Decimal(1) == "1";
    TerminatedOne(ManifestLine(xy));
    TerminatedOne(ManifestLine(y));
    TerminatedAppend([ManifestLine(x)], [ManifestLine(y)]);
    TerminatedOne(ManifestLine(x));
    assert ManifestLines([x, y]) == [ManifestLine(x)] + [ManifestLine(y)];
    assert ManifestLines([xy]) == [ManifestLine(xy)];
    assert ManifestLine(xy) + "\n" == ManifestLine(x) + "\n" + (ManifestLine(y) + "\n");
  }

  // ----- routing

  function DirectoryFolder(folder: Option<string>, machine: string, slug: string): string {
    (if folder.Some? && folder.value != "" then folder.value + "/" + machine + "/" else machine + "/") + slug
  }

  function MirrorPath(folder: Option<string>, machine: string, slug: string, relative: string): string {
    DirectoryFolder(folder, machine, slug) + ("/" + relative)
  }

  /** A sibling of the mirrored tree. */
  function ManifestNotePath(folder: Option<string>, machine: string, slug: string): string {
    DirectoryFolder(folder, machine, slug) + ".manifest.md"
  }

  /** A slug is one directory name. */
  predicate ValidSlug(slug: string) {
    slug != "" && '/' !in slug
  }

  function Root(folder: Option<string>): string {
    if folder.Some? && folder.value != "" then folder.value + "/" else ""
  }

  /** A mirrored file lies in the folder, in the machine's directory there, in the memory directory's
      there; the manifest note lies beside that. */
  lemma MirrorPathShape(folder: Option<string>, machine: string, slug: string, relative: string)
    ensures MirrorPath(folder, machine, slug, relative) == Root(folder) + (machine + "/" + slug + "/" + relative)
    ensures ManifestNotePath(folder, machine, slug) == Root(folder) + (machine + "/" + slug + ".manifest.md")
    ensures DirectoryFolder(folder, machine, slug) == Root(folder) + (machine + ("/" + slug))
  {
    var root := Root(folder);
    assert DirectoryFolder(folder, machine, slug) == root + (machine + ("/" + slug));
    hide DirectoryFolder, Root;
    assert root + (machine + ("/" + slug)) + ("/" + relative) == root + (machine + "/" + slug + "/" + relative);
    assert root + (machine + ("/" + slug)) + ".manifest.md" == root + (machine + "/" + slug + ".manifest.md");
  }

  /** One machine, or machine labels that are one directory name each. */
  predicate SameOrApart(machine: string, machine': string) {
    machine == machine' || ('/' !in machine && '/' !in machine')
  }

  lemma FolderInjective(
    folder: Option<string>, machine: string, slug: string, machine': string, slug': string, a: string, b: string)
    requires SameOrApart(machine, machine')
    requires DirectoryFolder(folder, machine, slug) + a == DirectoryFolder(folder, machine', slug') + b
    ensures machine == machine' && slug + a == slug' + b
  {
    var root := Root(folder);
    MirrorPathShape(folder, machine, slug, "");
    MirrorPathShape(folder, machine', slug', "");
    hide DirectoryFolder, Root;
    var x, y := machine + ("/" + (slug + a)), machine' + ("/" + (slug' + b));
    assert root + (machine + ("/" + slug)) + a == root + x && root + (machine' + ("/" + slug')) + b == root + y;
    assert (root + x)[|root|..] == x && (root + y)[|root|..] == y;
    if machine == machine' {
      assert x[|machine| + 1..] == slug + a && y[|machine| + 1..] == slug' + b;
    } else {
      FirstSlash(machine, slug + a, machine', slug' + b);
    }
  }

  lemma FirstSlash(slug: string, a: string, slug': string, b: string)
    requires '/' !in slug && '/' !in slug' && slug + ("/" + a) == slug' + ("/" + b)
    ensures slug == slug' && a == b
  {
    assert slug + ("/" + a) == slug + "/" + a && slug' + ("/" + b) == slug' + "/" + b;
    SplitOnceAtFresh(slug, "/", a);
    SplitOnceAtFresh(slug', "/", b);
  }

  /** Mirrored files and manifest notes of all directories of all machines have pairwise distinct paths. */
  lemma MirrorPathsDistinct(
    folder: Option<string>, machine: string, slug: string, relative: string,
    machine': string, slug': string, relative': string)
    requires ValidSlug(slug) && ValidSlug(slug') && SameOrApart(machine, machine')
    ensures MirrorPath(folder, machine, slug, relative) == MirrorPath(folder, machine', slug', relative') ==>
              machine == machine' && slug == slug' && relative == relative'
    ensures ManifestNotePath(folder, machine, slug) == ManifestNotePath(folder, machine', slug') ==>
              machine == machine' && slug == slug'
    ensures MirrorPath(folder, machine, slug, relative) != ManifestNotePath(folder, machine', slug')
  {
    hide DirectoryFolder;
    assert (slug + ("/" + relative))[|slug|] == '/' && '/' !in slug' + ".manifest.md";
    if MirrorPath(folder, machine, slug, relative) == MirrorPath(folder, machine', slug', relative') {
      FolderInjective(folder, machine, slug, machine', slug', "/" + relative, "/" + relative');
      FirstSlash(slug, relative, slug', relative');
    }
    if ManifestNotePath(folder, machine, slug) == ManifestNotePath(folder, machine', slug') {
      FolderInjective(folder, machine, slug, machine', slug', ".manifest.md", ".manifest.md");
      assert (slug + ".manifest.md")[..|slug|] == (slug' + ".manifest.md")[..|slug|] == slug;
    }
    if MirrorPath(folder, machine, slug, relative) == ManifestNotePath(folder, machine', slug') {
      FolderInjective(folder, machine, slug, machine', slug', "/" + relative, ".manifest.md");
    }
  }

  /** Distinct paths can still be unable to exist side by side: a manifest note's path is a mirrored
      file's folder exactly when the other directory is named after the note. */
  lemma ManifestIsFolderIff(folder: Option<string>, machine: string, slug: string, slug': string, relative: string)
    requires ValidSlug(slug) && ValidSlug(slug')
    ensures ManifestNotePath(folder, machine, slug) + "/" <= MirrorPath(folder, machine, slug', relative) <==>
              slug' == slug + ".manifest.md"
  {
    var note, mirrored := ManifestNotePath(folder, machine, slug) + "/", MirrorPath(folder, machine, slug', relative);
    if note <= mirrored {
      var rest := mirrored[|note|..];
      assert note + rest == mirrored;
      assert note + rest == DirectoryFolder(folder, machine, slug) + (".manifest.md" + ("/" + rest));
      FolderInjective(folder, machine, slug, machine, slug', ".manifest.md" + ("/" + rest), "/" + relative);
      assert slug + (".manifest.md" + ("/" + rest)) == (slug + ".manifest.md") + ("/" + rest);
      FirstSlash(slug + ".manifest.md", rest, slug', relative);
    }
    if slug' == slug + ".manifest.md" {
      assert mirrored == note + relative;
    }
  }

  /** The preflight's test for the mirror's own dirty paths. */
  predicate IsOwnDirty(folder: Option<string>, machine: string, slug: string, path: string) {
    || DirectoryFolder(folder, machine, slug) + "/" <= NormalizeNotePath(path)
    || NormalizeNotePath(path) == NormalizeNotePath(ManifestNotePath(folder, machine, slug))
  }

  lemma TrimKeepsTail(s: string, tail: string)
    requires TrimSlashesStart(s) != ""
    ensures TrimSlashesStart(s + tail) == TrimSlashesStart(s) + tail
  {
    if s[0] == '/' {
      assert (s + tail)[1..] == s[1..] + tail;
      TrimKeepsTail(s[1..], tail);
    }
  }

  lemma {:induction false} TrimKeepsSlug(s: string, slug: string)
    requires ValidSlug(slug)
    ensures TrimSlashesStart(s + slug) != ""
    decreases |s|
  {
    if s == [] {
      assert s + slug == slug && slug[0] in slug;
    } else if s[0] == '/' {
      assert (s + slug)[1..] == s[1..] + slug;
      TrimKeepsSlug(s[1..], slug);
    }
  }

  /** Git lists paths without leading slashes. The mirror's own files are recognised exactly when its
      folder has none either. */
  lemma OwnFilesRecognisedIff(folder: Option<string>, machine: string, slug: string, relative: string)
    requires ValidSlug(slug)
    ensures var listed := NormalizeNotePath(MirrorPath(folder, machine, slug, relative));
            IsOwnDirty(folder, machine, slug, listed) <==> DirectoryFolder(folder, machine, slug)[0] != '/'
  {
    var root := if folder.Some? && folder.value != "" then folder.value + "/" + machine + "/" else machine + "/";
    var own := DirectoryFolder(folder, machine, slug);
    TrimKeepsSlug(root, slug);
    TrimKeepsTail(own, "/" + relative);
    TrimKeepsTail(own, ".manifest.md");
    var trimmed := TrimSlashesStart(own);
    TrimmedStaysTrimmed(own);
    var listed := NormalizeNotePath(MirrorPath(folder, machine, slug, relative));
    assert listed == trimmed + ("/" + relative) && listed[0] != '/';
    assert TrimSlashesStart(listed) == listed;
    assert listed[|trimmed|] == '/' && (trimmed + ".manifest.md")[|trimmed|] == '.';
    if own[0] != '/' {
      assert trimmed == own && own + "/" <= listed;
    } else {
      assert (own + "/")[0] != listed[0];
    }
  }

  lemma {:induction false} TrimmedStaysTrimmed(s: string)
    ensures TrimSlashesStart(s) != "" ==> TrimSlashesStart(s)[0] != '/'
  {
    if s != [] && s[0] == '/' {
      TrimmedStaysTrimmed(s[1..]);
    }
  }

  // ----- the commit message

  function MemoryMessage(machine: string, slug: string, revision: nat): string {
    "munshi memory " + machine + ":" + slug + " revision " + Decimal(revision)
  }

  lemma BlankBefore(s: string, p: nat, q: nat)
    requires p <= |s| && 0 < q <= |s| && s[q - 1] == ' ' && ' ' !in s[p..]
    ensures q <= p
  {
    assert forall i :: p <= i < |s| ==> s[i] == s[p..][i - p] && s[i] in s[p..];
  }

  /** The decimal number behind the last blank and what stands before it are determined. */
  lemma LastNumber(a: string, m: nat, b: string, n: nat)
    requires a + " revision " + Decimal(m) == b + " revision " + Decimal(n)
    ensures a == b && m == n
  {
    var s := a + " revision " + Decimal(m);
    var p, q := |s| - |Decimal(m)|, |s| - |Decimal(n)|;
    assert s[p - 1] == ' ' && s[q - 1] == ' ';
    assert s[p..] == Decimal(m) && s[q..] == Decimal(n);
    assert ' ' !in s[p..] && ' ' !in s[q..];
    BlankBefore(s, p, q);
    BlankBefore(s, q, p);
    hide Decimal;
    DecimalInjective(m, n);
    assert s[..p - 10] == a && s[..q - 10] == b;
  }

  /** The message names one machine, one directory and one revision, whatever the directories are called,
      for machine labels without a colon. */
  lemma MemoryMessageInjective(
    machine: string, slug: string, revision: nat, machine': string, slug': string, revision': nat)
    requires machine == machine' || (':' !in machine && ':' !in machine')
    requires MemoryMessage(machine, slug, revision) == MemoryMessage(machine', slug', revision')
    ensures machine == machine' && slug == slug' && revision == revision'
  {
    var head := "munshi memory ";
    var x, y := machine + ":" + slug, machine' + ":" + slug';
    assert head + x == head + machine + ":" + slug && head + y == head + machine' + ":" + slug';
    LastNumber(head + x, revision, head + y, revision');
    assert (head + x)[|head|..] == x && (head + y)[|head|..] == y;
    if machine == machine' {
      assert x[|machine| + 1..] == slug && y[|machine| + 1..] == slug';
    } else {
      SplitOnceAtFresh(machine, ":", slug);
      SplitOnceAtFresh(machine', ":", slug');
    }
  }
}
