/**
  Which webhook deliveries are signed. A request handler stores a secret under the lock and
  erases it, through the stored pointer, in a later step of its own; deliveries, saves, other
  requests and restarts come in between in any order.
 */
module WebhookSecrets {
  import SchedulerProtocol
  import opened Sequences

  type Id = SchedulerProtocol.Id
  type Handler = nat

  /** Objects of the running process: created by a request, or read from the file at the start. */
  datatype Obj = Posted(n: nat) | Loaded(id: Id)

  /** secrets holds the secret of every object, stored or only pointed to; open, what each handler has yet to redact. */
  datatype State = State(secrets: map<Obj, string>, table: map<Id, Obj>, disk: map<Id, string>, open: map<Handler, Obj>)

  datatype Action =
    | Post(h: Handler, id: Id, n: nat, secret: string)
    | Patch(h: Handler, id: Id, change: Option<string>)
    | Get(h: Handler, id: Id)
    | Redact(h: Handler)
    | Delete(id: Id)
    | Save
    | Restart

  const EMPTY := State(map[], map[], map[], map[])

  predicate TablePoints(s: State) {
    forall id :: id in s.table ==> s.table[id] in s.secrets
  }

  function Snapshot(s: State): map<Id, string> {
    map id | id in s.table && s.table[id] in s.secrets :: s.secrets[s.table[id]]
  }

  /** Ids and handlers are fresh when they first appear; other actions that find nothing do nothing. */
  predicate Enabled(s: State, a: Action) {
    match a
    case Post(h, id, n, secret) => h !in s.open && id !in s.table && Posted(n) !in s.secrets
    case Patch(h, id, change) => h !in s.open && id in s.table
    case Get(h, id) => h !in s.open && id in s.table
    case Redact(h) => h in s.open
    case _ => true
  }

  function Step(s: State, a: Action): State {
    if !Enabled(s, a) then s
    else match a
      case Post(h, id, n, secret) =>
        s.(secrets := s.secrets[Posted(n) := secret], table := s.table[id := Posted(n)], open := s.open[h := Posted(n)])
      case Patch(h, id, change) =>
        s.(secrets := if change.Some? then s.secrets[s.table[id] := change.value] else s.secrets,
           open := s.open[h := s.table[id]])
      case Get(h, id) => s.(open := s.open[h := s.table[id]])
      case Redact(h) => s.(secrets := s.secrets[s.open[h] := ""], open := s.open - {h})
      case Delete(id) => s.(table := s.table - {id})
      case Save => s.(disk := Snapshot(s))
      case Restart =>
        State(map o: Obj | o in Objects(s.disk.Keys) :: s.disk[o.id], map id | id in s.disk :: Loaded(id), s.disk, map[])
  }

  /** The objects that a restart makes from the ids of the file. */
  function Objects(ids: set<Id>): (os: set<Obj>)
    ensures forall o :: o in os <==> o.Loaded? && o.id in ids
  {
    set id | id in ids :: Loaded(id)
  }

  /** The state after the first i actions. */
  function At(acts: seq<Action>, i: nat): State
    requires i <= |acts|
  {
    if i == 0 then EMPTY else Step(At(acts, i - 1), acts[i - 1])
  }

  /** A delivery that reads o now carries a signature. */
  ghost predicate Signed(acts: seq<Action>, i: nat, o: Obj)
    requires i <= |acts|
  {
    var s := At(acts, i);
    o in s.secrets && s.secrets[o] != ""
  }

  // ---------------------------------------------------- what the trace says

  /** Action k stores a secret in o. */
  ghost predicate Stores(acts: seq<Action>, k: nat, o: Obj)
    requires k < |acts|
  {
    var s := At(acts, k);
    Enabled(s, acts[k]) &&
    match acts[k]
    case Post(h, id, n, secret) => o == Posted(n) && secret != ""
    case Patch(h, id, change) => s.table[id] == o && change.Some? && change.value != ""
    case _ => false
  }

  /** Action k puts an end to what o held: a redaction of it, a new value, or a restart. */
  ghost predicate Rewrites(acts: seq<Action>, k: nat, o: Obj)
    requires k < |acts|
  {
    var s := At(acts, k);
    Enabled(s, acts[k]) &&
    match acts[k]
    case Post(h, id, n, secret) => o == Posted(n)
    case Patch(h, id, change) => s.table[id] == o && change.Some?
    case Redact(h) => s.open[h] == o
    case Restart => true
    case _ => false
  }

  ghost predicate Untouched(acts: seq<Action>, lo: int, hi: int, o: Obj) {
    forall j :: lo <= j < hi && 0 <= j < |acts| ==> !Rewrites(acts, j, o)
  }

  /** The window: a secret was stored in o, and neither redacted nor overwritten since. */
  ghost predicate InWindow(acts: seq<Action>, i: nat, o: Obj)
    requires i <= |acts|
  {
    exists k: nat :: k < i && Stores(acts, k, o) && Untouched(acts, k + 1, i, o)
  }

  ghost predicate LastSave(acts: seq<Action>, m: nat, i: nat)
    requires i <= |acts|
  {
    m < i && acts[m] == Save && forall j :: m < j < i ==> acts[j] != Save
  }

  /** The last save before k wrote a secret for id: it fell in a window, or followed such a load. */
  ghost predicate DirtyFile(acts: seq<Action>, k: nat, id: Id)
    requires k <= |acts|
    decreases k, 0
  {
    exists m: nat :: m < k && DirtySave(acts, m, k, id)
  }

  ghost predicate DirtySave(acts: seq<Action>, m: nat, k: nat, id: Id)
    requires m < k <= |acts|
    decreases m, 2
  {
    && LastSave(acts, m, k) && id in At(acts, m).table
    && var o := At(acts, m).table[id];
       InWindow(acts, m, o) || FromDirtyFile(acts, m, o)
  }

  /** o was loaded from such a file, and neither redacted nor overwritten since. */
  ghost predicate FromDirtyFile(acts: seq<Action>, i: nat, o: Obj)
    requires i <= |acts|
    decreases i, 1
  {
    exists k: nat :: k < i && LoadsDirty(acts, k, o) && Untouched(acts, k + 1, i, o)
  }

  ghost predicate LoadsDirty(acts: seq<Action>, k: nat, o: Obj)
    requires k < |acts|
    decreases k, 2
  {
    acts[k] == Restart && o.Loaded? && DirtyFile(acts, k, o.id)
  }

  // ------------------------------------------------------------- one step

  lemma {:induction false} TableAlwaysPoints(acts: seq<Action>, i: nat)
    requires i <= |acts|
    ensures TablePoints(At(acts, i))
  {
    if i > 0 {
      TableAlwaysPoints(acts, i - 1);
    }
  }

  ghost predicate LoadsSecret(acts: seq<Action>, k: nat, o: Obj)
    requires k < |acts|
  {
    acts[k] == Restart && o.Loaded? && o.id in At(acts, k).disk && At(acts, k).disk[o.id] != ""
  }

  lemma SignedNext(acts: seq<Action>, i: nat, o: Obj)
    requires i < |acts|
    ensures Signed(acts, i + 1, o) <==>
              Stores(acts, i, o) || LoadsSecret(acts, i, o) || (Signed(acts, i, o) && !Rewrites(acts, i, o))
  {
  }

  lemma InWindowNext(acts: seq<Action>, i: nat, o: Obj)
    requires i < |acts|
    ensures InWindow(acts, i + 1, o) <==> Stores(acts, i, o) || (InWindow(acts, i, o) && !Rewrites(acts, i, o))
  {
    if k: nat :| k < i + 1 && Stores(acts, k, o) && Untouched(acts, k + 1, i + 1, o) {
      assert k < i ==> Untouched(acts, k + 1, i, o);
    }
    if k: nat :| k < i && Stores(acts, k, o) && Untouched(acts, k + 1, i, o) {
      assert !Rewrites(acts, i, o) ==> Untouched(acts, k + 1, i + 1, o);
    }
    if Stores(acts, i, o) {
      assert Untouched(acts, i + 1, i + 1, o);
    }
  }

  lemma FromDirtyFileNext(acts: seq<Action>, i: nat, o: Obj)
    requires i < |acts|
    ensures FromDirtyFile(acts, i + 1, o) <==> LoadsDirty(acts, i, o) || (FromDirtyFile(acts, i, o) && !Rewrites(acts, i, o))
  {
    if k: nat :| k < i + 1 && LoadsDirty(acts, k, o) && Untouched(acts, k + 1, i + 1, o) {
      assert k < i ==> Untouched(acts, k + 1, i, o);
    }
    if k: nat :| k < i && LoadsDirty(acts, k, o) && Untouched(acts, k + 1, i, o) {
      assert !Rewrites(acts, i, o) ==> Untouched(acts, k + 1, i + 1, o);
    }
    if LoadsDirty(acts, i, o) {
      assert Untouched(acts, i + 1, i + 1, o);
    }
  }

  ghost predicate DiskHoldsSecret(acts: seq<Action>, i: nat, id: Id)
    requires i <= |acts|
  {
    id in At(acts, i).disk && At(acts, i).disk[id] != ""
  }

  /** The last save before i found a secret in the object stored under id. */
  ghost predicate SavedSecret(acts: seq<Action>, m: nat, i: nat, id: Id)
    requires i <= |acts|
  {
    LastSave(acts, m, i) && id in At(acts, m).table && Signed(acts, m, At(acts, m).table[id])
  }

  /** The file holds a secret exactly when the last save found one in memory. */
  lemma {:induction false} DiskHoldsSecretIff(acts: seq<Action>, i: nat, id: Id)
    requires i <= |acts|
    ensures DiskHoldsSecret(acts, i, id) <==> exists m: nat :: SavedSecret(acts, m, i, id)
  {
    if i > 0 {
      var k := i - 1;
      DiskHoldsSecretIff(acts, k, id);
      TableAlwaysPoints(acts, k);
      if acts[k] == Save {
        assert SavedSecret(acts, k, i, id) <==> DiskHoldsSecret(acts, i, id);
        if m: nat :| SavedSecret(acts, m, i, id) {
          assert m == k;
        }
      } else {
        assert At(acts, i).disk == At(acts, k).disk;
        forall m: nat ensures SavedSecret(acts, m, i, id) <==> SavedSecret(acts, m, k, id) {
          assert LastSave(acts, m, i) <==> LastSave(acts, m, k);
        }
      }
    }
  }

  // ------------------------------------------------------------- theorems

  lemma DirtyFileIff(acts: seq<Action>, i: nat, id: Id)
    requires i <= |acts|
    requires forall m: nat, o :: m < i ==> (Signed(acts, m, o) <==> InWindow(acts, m, o) || FromDirtyFile(acts, m, o))
    ensures DiskHoldsSecret(acts, i, id) <==> DirtyFile(acts, i, id)
  {
    DiskHoldsSecretIff(acts, i, id);
    forall m: nat | m < i ensures SavedSecret(acts, m, i, id) <==> DirtySave(acts, m, i, id) {
    }
  }

  /**
    A delivery is signed exactly when its read falls in a window, between the store of a secret
    and the next redaction or overwrite, or follows a restart that loaded a file saved in one.
   */
  lemma {:induction false} SignedIff(acts: seq<Action>, i: nat, o: Obj)
    requires i <= |acts|
    ensures Signed(acts, i, o) <==> InWindow(acts, i, o) || FromDirtyFile(acts, i, o)
    decreases i
  {
    if i > 0 {
      SignedNext(acts, i - 1, o);
      InWindowNext(acts, i - 1, o);
      FromDirtyFileNext(acts, i - 1, o);
      SignedIff(acts, i - 1, o);
      if o.Loaded? {
        forall m: nat, x | m < i - 1 ensures Signed(acts, m, x) <==> InWindow(acts, m, x) || FromDirtyFile(acts, m, x) {
          SignedIff(acts, m, x);
        }
        DirtyFileIff(acts, i - 1, o.id);
      }
    }
  }

  /** Some handler still has to redact o. */
  ghost predicate RedactionOwed(acts: seq<Action>, i: nat, o: Obj)
    requires i <= |acts|
  {
    exists h :: h in At(acts, i).open && At(acts, i).open[h] == o
  }

  /** While a window is open, the handler that opened it, or one after it, still has to redact. */
  lemma {:induction false} WindowIsOwed(acts: seq<Action>, i: nat, o: Obj)
    requires i <= |acts| && InWindow(acts, i, o)
    ensures RedactionOwed(acts, i, o)
    decreases i
  {
    InWindowNext(acts, i - 1, o);
    if Stores(acts, i - 1, o) {
      assert acts[i - 1].h in At(acts, i).open && At(acts, i).open[acts[i - 1].h] == o;
    } else {
      WindowIsOwed(acts, i - 1, o);
      var h :| h in At(acts, i - 1).open && At(acts, i - 1).open[h] == o;
      assert h in At(acts, i).open && At(acts, i).open[h] == o;
    }
  }

  /** A loaded object is stored under its own id only. */
  lemma {:induction false} LoadedKeepsItsId(acts: seq<Action>, i: nat, id: Id)
    requires i <= |acts| && id in At(acts, i).table && At(acts, i).table[id].Loaded?
    ensures At(acts, i).table[id] == Loaded(id)
  {
    if i > 0 && id in At(acts, i - 1).table && At(acts, i - 1).table[id].Loaded? {
      LoadedKeepsItsId(acts, i - 1, id);
    }
  }

  /** No save finds a redaction owed on the object then stored under id. */
  ghost predicate CleanSaves(acts: seq<Action>, id: Id) {
    forall m :: 0 <= m < |acts| && acts[m] == Save && id in At(acts, m).table ==>
      !RedactionOwed(acts, m, At(acts, m).table[id])
  }

  lemma {:induction false} CleanSavesLoadClean(acts: seq<Action>, i: nat, id: Id)
    requires i <= |acts| && CleanSaves(acts, id)
    ensures !FromDirtyFile(acts, i, Loaded(id))
    decreases i
  {
    var o := Loaded(id);
    if k: nat :| k < i && LoadsDirty(acts, k, o) && Untouched(acts, k + 1, i, o) {
      assert LoadsDirty(acts, k, o) && DirtyFile(acts, k, id);
      var m: nat :| m < k && DirtySave(acts, m, k, id);
      var x := At(acts, m).table[id];
      assert !RedactionOwed(acts, m, x);
      if InWindow(acts, m, x) {
        WindowIsOwed(acts, m, x);
      } else {
        assert FromDirtyFile(acts, m, x);
        LoadedKeepsItsId(acts, m, id);
        CleanSavesLoadClean(acts, m, id);
      }
      assert false;
    }
  }

  /**
    An object that a request created signs only while a handler is between its store and its
    redaction. So does a loaded one, if no save ever fell between store and redaction of the
    schedule with its id; saves during requests on other schedules do not matter.
   */
  lemma SignedOnlyWhileOwed(acts: seq<Action>, i: nat, o: Obj)
    requires i <= |acts| && Signed(acts, i, o)
    requires o.Loaded? ==> CleanSaves(acts, o.id)
    ensures RedactionOwed(acts, i, o)
  {
    SignedIff(acts, i, o);
    if o.Loaded? {
      CleanSavesLoadClean(acts, i, o.id);
    }
    WindowIsOwed(acts, i, o);
  }

  /** A redaction erases the secret of the object its handler holds, whatever came before. */
  lemma RedactionErases(acts: seq<Action>, i: nat, h: Handler, o: Obj)
    requires i < |acts| && acts[i] == Redact(h) && h in At(acts, i).open && At(acts, i).open[h] == o
    ensures !Signed(acts, i + 1, o) && h !in At(acts, i + 1).open
  {
  }

  /** A PATCH with a secret opens a window on the stored schedule, in any state. */
  lemma PatchOpensAWindow(acts: seq<Action>, i: nat, h: Handler, id: Id, secret: string)
    requires i < |acts| && acts[i] == Patch(h, id, Some(secret)) && secret != ""
    requires h !in At(acts, i).open && id in At(acts, i).table
    ensures Signed(acts, i + 1, At(acts, i).table[id]) && RedactionOwed(acts, i + 1, At(acts, i).table[id])
  {
    assert h in At(acts, i + 1).open;
  }

  /** A PATCH without a secret, or a GET, stores nothing and will redact. */
  lemma ReadingOwesARedaction(acts: seq<Action>, i: nat, h: Handler, id: Id)
    requires i < |acts| && (acts[i] == Patch(h, id, None) || acts[i] == Get(h, id))
    requires h !in At(acts, i).open && id in At(acts, i).table
    ensures RedactionOwed(acts, i + 1, At(acts, i).table[id]) && At(acts, i + 1).secrets == At(acts, i).secrets
  {
    assert h in At(acts, i + 1).open;
  }

  /** A deleted schedule is gone from the table and from the next file; its object lives on. */
  lemma DeletionLeavesTheObject(acts: seq<Action>, i: nat, id: Id)
    requires i + 1 < |acts| && acts[i] == Delete(id) && acts[i + 1] == Save
    ensures id !in At(acts, i + 1).table && id !in At(acts, i + 2).disk
    ensures At(acts, i + 1).secrets == At(acts, i).secrets
  {
  }

  /** The other case is real: a save inside the window and a restart leave a schedule that signs. */
  lemma DirtyFileSigns(h: Handler, id: Id, n: nat, secret: string)
    requires secret != ""
    ensures
      var acts := [Post(h, id, n, secret), Save, Redact(h), Restart];
      Signed(acts, 4, Loaded(id)) && !RedactionOwed(acts, 4, Loaded(id))
  {
    var acts := [Post(h, id, n, secret), Save, Redact(h), Restart];
    assert At(acts, 0) == EMPTY;
    var a := At(acts, 1);
    assert a.secrets == map[Posted(n) := secret] && a.table == map[id := Posted(n)];
    assert At(acts, 2).disk == map[id := secret];
    assert At(acts, 3).disk == map[id := secret];
    assert Loaded(id) in At(acts, 4).secrets;
  }
}
