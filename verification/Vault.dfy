/** The remote note vault: note files, the Git tree they were last committed as, and an append-only
    commit log. Every call can work, be refused, or take effect and lose its answer. */
module Vault {
  import opened Wrappers

  datatype NoteIdentity = NoteIdentity(session: string, source: string, project: string, revision: nat)

  /** A note Munshi owns, or anything else that lies in the vault. */
  datatype Content = Note(identity: NoteIdentity, body: string) | Foreign(text: string)

  datatype Commit = Commit(subject: string, sha: nat, paths: set<string>)

  /** `log` is newest first, as `git log` lists it. */
  datatype Vault = Vault(files: map<string, Content>, head: map<string, Content>, log: seq<Commit>)

  /** What becomes of a call; a failure carries the category it is reported under. */
  datatype Fate = Works | Refuses(category: string) | Lost(category: string)

  datatype SinkError = NotFound | AlreadyExists | Broken(category: string)

  function Category(e: SinkError): string {
    match e
    case NotFound => "delivery-not-found"
    case AlreadyExists => "delivery-conflict"
    case Broken(category) => category
  }

  function Lookup(files: map<string, Content>, path: string): Option<Content> {
    if path in files then Some(files[path]) else None
  }

  function Dirty(v: Vault): set<string> {
    set path | path in v.files.Keys + v.head.Keys && Lookup(v.files, path) != Lookup(v.head, path)
  }

  function Write(v: Vault, path: string, content: Content): Vault {
    v.(files := v.files[path := content])
  }

  /** `POST notes`: refuses to overwrite. */
  function CreateNote(v: Vault, path: string, content: Content, fate: Fate): (Vault, Result<string, SinkError>) {
    match fate
    case Refuses(category) => (v, Failure(Broken(category)))
    case Works => if path in v.files then (v, Failure(AlreadyExists)) else (Write(v, path, content), Success(path))
    case Lost(category) =>
      (if path in v.files then v else Write(v, path, content), Failure(Broken(category)))
  }

  /** `PUT notes/<path>`: overwrites, but does not create. */
  function ReplaceNote(v: Vault, path: string, content: Content, fate: Fate): (Vault, Result<string, SinkError>) {
    match fate
    case Refuses(category) => (v, Failure(Broken(category)))
    case Works => if path !in v.files then (v, Failure(NotFound)) else (Write(v, path, content), Success(path))
    case Lost(category) =>
      (if path !in v.files then v else Write(v, path, content), Failure(Broken(category)))
  }

  /** The whole working tree becomes one commit; a clean tree makes none. */
  function CommitTree(v: Vault, subject: string): Vault {
    if Dirty(v) == {} then v
    else v.(head := v.files, log := [Commit(subject, |v.log|, Dirty(v))] + v.log)
  }

  /** `POST git/commit`: whether a commit was made, and its identifier. */
  function CommitRevision(v: Vault, subject: string, fate: Fate): (Vault, Result<Option<nat>, SinkError>) {
    match fate
    case Refuses(category) => (v, Failure(Broken(category)))
    case Works => (CommitTree(v, subject), Success(if Dirty(v) == {} then None else Some(|v.log|)))
    case Lost(category) => (CommitTree(v, subject), Failure(Broken(category)))
  }

  /** A commit makes the tree what lies in the vault, and names exactly the paths whose committed content
      it changes; there is none when nothing would change. */
  lemma CommitIsExact(v: Vault, subject: string)
    ensures var after := CommitTree(v, subject);
            && after.files == v.files
            && (forall p :: Lookup(after.head, p) == Lookup(v.files, p))
            && (if forall p :: Lookup(v.head, p) == Lookup(v.files, p) then after == v
                else
                  && |after.log| == |v.log| + 1 && after.log[1..] == v.log && after.log[0].subject == subject
                  && forall p :: p in after.log[0].paths <==> Lookup(v.head, p) != Lookup(after.head, p))
  {
    if p :| p in Dirty(v) {
      assert Lookup(v.head, p) != Lookup(v.files, p);
    } else {
      forall p
        ensures Lookup(v.head, p) == Lookup(v.files, p)
      {
        assert p !in Dirty(v);
      }
    }
  }

  /** `git/log?limit=500`. */
  const LOG_LIMIT: nat := 500

  function Newest(log: seq<Commit>): seq<Commit> {
    if |log| <= LOG_LIMIT then log else log[..LOG_LIMIT]
  }

  /** The newest entry whose subject is exactly `subject`. */
  function FirstWithSubject(entries: seq<Commit>, subject: string): (r: Option<Commit>)
    ensures r.Some? ==> r.value in entries && r.value.subject == subject
    ensures r.None? ==> forall c :: c in entries ==> c.subject != subject
  {
    if entries == [] then None
    else if entries[0].subject == subject then Some(entries[0])
    else FirstWithSubject(entries[1..], subject)
  }

  /** `find_commit_by_message`: only a failed request hides an entry that is listed. */
  function FindCommit(v: Vault, subject: string, fate: Fate): Result<Option<Commit>, SinkError> {
    if fate.Works? then Success(FirstWithSubject(Newest(v.log), subject)) else Failure(Broken(fate.category))
  }

  method FindCommitByMessage(entries: seq<Commit>, subject: string) returns (found: Option<Commit>)
    ensures found == FirstWithSubject(entries, subject)
  {
    for i := 0 to |entries|
      invariant FirstWithSubject(entries, subject) == FirstWithSubject(entries[i..], subject)
    {
      if entries[i].subject == subject {
        return Some(entries[i]);
      }
      assert entries[i..][1..] == entries[i + 1..];
    }
    found := None;
  }

  lemma {:induction false} FirstIsNewest(entries: seq<Commit>, subject: string, k: nat)
    requires k < |entries| && entries[k].subject == subject && forall j :: 0 <= j < k ==> entries[j].subject != subject
    ensures FirstWithSubject(entries, subject) == Some(entries[k])
  {
    if k > 0 {
      FirstIsNewest(entries[1..], subject, k - 1);
    }
  }

  /** A lookup that is answered finds the newest commit with the subject, and finds one exactly when it is
      among the 500 newest of the log. */
  lemma LookupIff(v: Vault, subject: string, k: nat)
    requires k < |v.log| && v.log[k].subject == subject && forall j :: 0 <= j < k ==> v.log[j].subject != subject
    ensures FindCommit(v, subject, Works) == Success(if k < 500 then Some(v.log[k]) else None)
  {
    var seen := Newest(v.log);
    assert forall j :: 0 <= j < |seen| ==> seen[j] == v.log[j];
    if k < 500 {
      FirstIsNewest(seen, subject, k);
    } else {
      assert forall c :: c in seen ==> c.subject != subject;
    }
  }

  /** A clean tree after a write means the write restated what was committed. */
  lemma CleanAfterWrite(v: Vault, path: string, content: Content)
    ensures Dirty(Write(v, path, content)) == {} <==>
              Lookup(v.head, path) == Some(content) && Dirty(v) <= {path}
  {
    var after := Write(v, path, content);
    forall p | p != path
      ensures p in Dirty(after) <==> p in Dirty(v)
    {
    }
    assert path in Dirty(after) <==> Lookup(v.head, path) != Some(content);
    if Dirty(after) == {} {
      forall p | p in Dirty(v)
        ensures p == path
      {
        assert p !in Dirty(after);
      }
    } else {
      var p :| p in Dirty(after);
    }
  }
}
