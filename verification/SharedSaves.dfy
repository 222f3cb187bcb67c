/** Saves that overlap. `persist` takes no lock over its file steps and every call uses the same
    temporary path, so two saves can share one file. */
module SharedSaves {
  import opened Buckets
  import opened Ceremonies
  import opened Auth

  type SaveId = nat

  /** A save in progress: the file its handle is open on, what it writes, whether it has written and
      synced, and whether another save has opened the same file meanwhile. */
  datatype Save = Save(file: nat, store: Credentials, written: bool, shared: bool)

  /** Files by number; the two paths name some of them. */
  datatype Disk = Disk(main: Option<nat>, tmp: Option<nat>, files: map<nat, Content>, saves: map<SaveId, Save>)

  /** Create opens and truncates the temporary path; Part is a write under way; Write completes it
      and syncs; Rename moves whatever the temporary path names; Fail gives up. */
  datatype Act =
    | Create(save: SaveId, store: Credentials, file: nat)
    | Part(save: SaveId)
    | Write(save: SaveId, got: Content)
    | Rename(save: SaveId)
    | Fail(save: SaveId)

  ghost predicate Held(saves: map<SaveId, Save>, file: nat) {
    exists k :: k in saves && saves[k].file == file
  }

  function Share(saves: map<SaveId, Save>, file: nat): map<SaveId, Save> {
    map k | k in saves :: if saves[k].file == file then saves[k].(shared := true) else saves[k]
  }

  /** A shared file ends up whole or torn, depending on how the writes fall. */
  ghost predicate Step(d: Disk, x: Act, e: Disk) {
    match x
    case Create(k, store, file) =>
      && k !in d.saves
      && (if d.tmp.Some? then file == d.tmp.value else file !in d.files)
      && e == d.(tmp := Some(file), files := d.files[file := Torn],
                 saves := Share(d.saves, file)[k := Save(file, store, false, Held(d.saves, file))])
    case Part(k) =>
      k in d.saves && !d.saves[k].written && e == d.(files := d.files[d.saves[k].file := Torn])
    case Write(k, got) =>
      && k in d.saves && !d.saves[k].written
      && (got == Whole(d.saves[k].store) || (d.saves[k].shared && got == Torn))
      && e == d.(files := d.files[d.saves[k].file := got], saves := d.saves[k := d.saves[k].(written := true)])
    case Rename(k) =>
      && k in d.saves && d.saves[k].written
      && e == if d.tmp.Some? then d.(main := d.tmp, tmp := None, saves := d.saves - {k}) else d.(saves := d.saves - {k})
    case Fail(k) => k in d.saves && e == d.(saves := d.saves - {k})
  }

  /** What a restart would find under the main path. */
  function Main(d: Disk): Content {
    if d.main.Some? && d.main.value in d.files then d.files[d.main.value] else Absent
  }

  /** At most one save is in progress, it has the temporary file to itself, and the main file is
      whole or missing. */
  ghost predicate Safe(d: Disk) {
    && Main(d) != Torn
    && (d.main.Some? ==> d.main.value in d.files && d.main != d.tmp)
    && (d.tmp.Some? ==> d.tmp.value in d.files)
    && (forall k, l :: k in d.saves && l in d.saves ==> k == l)
    && forall k :: k in d.saves ==>
         && d.tmp == Some(d.saves[k].file) && !d.saves[k].shared
         && (d.saves[k].written ==> d.files[d.saves[k].file] == Whole(d.saves[k].store))
  }

  /** While saves do not overlap, the main file changes only by a rename, and then from one complete
      store to the complete store that was saved. */
  lemma SerialStep(d: Disk, x: Act, e: Disk)
    requires Safe(d) && Step(d, x, e) && (x.Create? ==> d.saves == map[])
    ensures Safe(e)
    ensures Main(e) == if x.Rename? then Whole(d.saves[x.save].store) else Main(d)
  {
    if x.Create? {
      assert Share(d.saves, x.file) == map[];
    }
  }

  ghost predicate Leads(d: Disk, acts: seq<Act>, e: Disk)
    decreases |acts|
  {
    if acts == [] then d == e
    else exists mid :: Step(d, acts[0], mid) && Leads(mid, acts[1..], e)
  }

  ghost predicate NoCreate(acts: seq<Act>) {
    forall i :: 0 <= i < |acts| ==> !acts[i].Create?
  }

  lemma {:induction false} SafeWithout(d: Disk, acts: seq<Act>, e: Disk)
    requires Safe(d) && NoCreate(acts) && Leads(d, acts, e)
    ensures Safe(e)
    decreases |acts|
  {
    if acts != [] {
      var mid :| Step(d, acts[0], mid) && Leads(mid, acts[1..], e);
      SerialStep(d, acts[0], mid);
      SafeWithout(mid, acts[1..], e);
    }
  }

  lemma LeadsFirst(d: Disk, x: Act, mid: Disk, acts: seq<Act>, e: Disk)
    requires Step(d, x, mid) && Leads(mid, acts, e)
    ensures Leads(d, [x] + acts, e)
  {
    assert ([x] + acts)[1..] == acts;
  }

  /** The state a second save makes when it opens the temporary file of the first. */
  lemma Overlapped(d: Disk, k: SaveId, x: Act, e: Disk)
    requires Safe(d) && k in d.saves && x.Create? && Step(d, x, e)
    ensures k in e.saves && x.save in e.saves && k != x.save
    ensures e.tmp == Some(d.saves[k].file) && e.files == d.files[d.saves[k].file := Torn]
    ensures e.saves[k] == d.saves[k].(shared := true)
    ensures e.saves[x.save] == Save(d.saves[k].file, x.store, false, true)
  {
    assert Held(d.saves, d.saves[k].file);
  }

  /** If the first save had written already, its rename installs the file the second truncated. */
  lemma TornByTruncation(d: Disk, k: SaveId, x: Act, e: Disk) returns (acts: seq<Act>, f: Disk)
    requires Safe(d) && k in d.saves && d.saves[k].written && x.Create? && Step(d, x, e)
    ensures NoCreate(acts) && Leads(e, acts, f) && Main(f) == Torn
  {
    Overlapped(d, k, x, e);
    f := e.(main := e.tmp, tmp := None, saves := e.saves - {k});
    acts := [Rename(k)] + [];
    assert Leads(f, [], f);
    LeadsFirst(e, Rename(k), f, [], f);
  }

  /** If not, it writes and renames, and the second then writes into the main file. */
  lemma TornByWriting(d: Disk, k: SaveId, x: Act, e: Disk) returns (acts: seq<Act>, f: Disk)
    requires Safe(d) && k in d.saves && !d.saves[k].written && x.Create? && Step(d, x, e)
    ensures NoCreate(acts) && Leads(e, acts, f) && Main(f) == Torn
  {
    Overlapped(d, k, x, e);
    var file := d.saves[k].file;
    var written := e.(files := e.files[file := Whole(e.saves[k].store)],
        saves := e.saves[k := e.saves[k].(written := true)]);
    var renamed := written.(main := written.tmp, tmp := None, saves := written.saves - {k});
    f := renamed.(files := renamed.files[file := Torn]);
    assert Leads(f, [], f);
    LeadsFirst(renamed, Part(x.save), f, [], f);
    LeadsFirst(written, Rename(k), renamed, [Part(x.save)] + [], f);
    LeadsFirst(e, Write(k, Whole(e.saves[k].store)), written, [Rename(k)] + ([Part(x.save)] + []), f);
    acts := [Write(k, Whole(e.saves[k].store))] + ([Rename(k)] + ([Part(x.save)] + []));
  }

  /** No continuation without a further save ever leaves the main file torn. */
  ghost predicate NeverTorn(d: Disk) {
    forall acts, e :: NoCreate(acts) && Leads(d, acts, e) ==> Main(e) != Torn
  }

  /** The exact condition: a save that begins keeps the main file whole at every moment from then on
      if and only if no other save is in progress when it begins. */
  lemma WholeIffSerial(d: Disk, x: Act, e: Disk)
    requires Safe(d) && x.Create? && Step(d, x, e)
    ensures NeverTorn(e) <==> d.saves == map[]
  {
    if d.saves == map[] {
      SerialStep(d, x, e);
      forall acts, f | NoCreate(acts) && Leads(e, acts, f)
        ensures Main(f) != Torn
      {
        SafeWithout(e, acts, f);
      }
    } else {
      var k := SomeSave(d.saves);
      var acts, f;
      if d.saves[k].written {
        acts, f := TornByTruncation(d, k, x, e);
      } else {
        acts, f := TornByWriting(d, k, x, e);
      }
    }
  }

  lemma NoSaves(saves: map<SaveId, Save>)
    requires forall j :: j !in saves
    ensures saves == map[]
  {
  }

  lemma SomeSave(saves: map<SaveId, Save>) returns (k: SaveId)
    requires saves != map[]
    ensures k in saves
  {
    if forall j :: j !in saves {
      NoSaves(saves);
    }
    k :| k in saves;
  }

  const BLANK := Disk(None, None, map[], map[])

  /** From an empty data directory: one save creates, writes and syncs, a second creates, and the first
      renames. The main file is then torn, and a start that found it would refuse. */
  lemma TornFromEmpty(first: Credentials, second: Credentials, code: Token) returns (acts: seq<Act>, e: Disk)
    ensures acts == [Create(0, first, 0), Write(0, Whole(first)), Create(1, second, 0), Rename(0)]
    ensures Leads(BLANK, acts, e) && Main(e) == Torn && Started(Files(Main(e), Absent), code).None?
  {
    var a := Disk(None, Some(0), map[0 := Torn], map[0 := Save(0, first, false, false)]);
    var b := a.(files := map[0 := Whole(first)], saves := map[0 := Save(0, first, true, false)]);
    var c := b.(files := map[0 := Torn],
                saves := map[0 := Save(0, first, true, true), 1 := Save(0, second, false, true)]);
    e := c.(main := Some(0), tmp := None, saves := c.saves - {0});
    assert Step(BLANK, Create(0, first, 0), a);
    assert Step(a, Write(0, Whole(first)), b);
    SecondCreate(b, c, first, second);
    assert Step(c, Rename(0), e);
    assert Leads(e, [], e);
    LeadsFirst(c, Rename(0), e, [], e);
    LeadsFirst(b, Create(1, second, 0), c, [Rename(0)] + [], e);
    LeadsFirst(a, Write(0, Whole(first)), b, [Create(1, second, 0)] + ([Rename(0)] + []), e);
    var rest := [Write(0, Whole(first))] + ([Create(1, second, 0)] + ([Rename(0)] + []));
    acts := [Create(0, first, 0)] + rest;
    LeadsFirst(BLANK, Create(0, first, 0), a, rest, e);
  }

  lemma SecondCreate(b: Disk, c: Disk, first: Credentials, second: Credentials)
    requires b == Disk(None, Some(0), map[0 := Whole(first)], map[0 := Save(0, first, true, false)])
    requires c == Disk(None, Some(0), map[0 := Torn],
                       map[0 := Save(0, first, true, true), 1 := Save(0, second, false, true)])
    ensures Step(b, Create(1, second, 0), c)
  {
    assert b.saves[0].file == 0 && Held(b.saves, 0);
    assert Share(b.saves, 0)[1 := Save(0, second, false, true)] == c.saves;
  }
}
