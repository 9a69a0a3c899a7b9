/**
 The device-name set of ipshark (`ipshark/devset.c`): a table of 256 chains, and its agreement with a
 plain list and with the sorted arrays of ipshark2.
 */
module DevHash {
  import opened DevArray
  import opened Wrappers
  import opened Errno

  const IPS_WHITE: int := 0
  const IPS_BLACK: int := 1
  const IPS_NONE: int := 2

  const IFNAMSIZ: nat := 16
  const HASH_SIZE: nat := 256

  datatype DevEntry = DevEntry(name: string, hash: nat)

  /** `struct devname_list`; None for a null name pointer. */
  datatype NameList = NameList(whiteBlack: int, names: Option<seq<string>>)

  /** The first entry of a chain with this name. */
  function Chain(head: seq<DevEntry>, name: string, hash: nat): bool {
    if head == [] then false
    else (hash == head[0].hash && StrnEq(head[0].name, name, IFNAMSIZ)) || Chain(head[1..], name, hash)
  }

  /** Every entry sits in the chain its hash says, with the hash of its name, and once. */
  ghost predicate Placed(table: seq<seq<DevEntry>>, jhash: string -> nat) {
    && |table| == HASH_SIZE
    && (forall k, i :: 0 <= k < HASH_SIZE && 0 <= i < |table[k]| ==> EntryPlaced(table[k][i], k, jhash))
    && (forall k :: 0 <= k < HASH_SIZE ==> NoRepeats(table[k]))
  }

  ghost predicate EntryPlaced(e: DevEntry, k: nat, jhash: string -> nat) {
    e.hash == jhash(e.name) && e.hash % HASH_SIZE == k && |e.name| < IFNAMSIZ
  }

  ghost predicate NoRepeats(chain: seq<DevEntry>) {
    forall i, j :: 0 <= i < j < |chain| ==> chain[i].name != chain[j].name
  }

  /** The names the table holds. */
  ghost predicate Holds(table: seq<seq<DevEntry>>, name: string) {
    exists k, i :: 0 <= k < |table| && 0 <= i < |table[k]| && table[k][i].name == name
  }

  lemma {:induction false} ChainFinds(head: seq<DevEntry>, name: string, hash: nat)
    requires forall i :: 0 <= i < |head| ==> |head[i].name| < IFNAMSIZ
    ensures Chain(head, name, hash) <==>
      exists i :: 0 <= i < |head| && head[i].hash == hash && head[i].name == name
  {
    if head != [] {
      assert forall i :: 0 <= i < |head[1..]| ==> head[1..][i] == head[i + 1];
      ChainFinds(head[1..], name, hash);
      if Chain(head[1..], name, hash) {
        var i :| 0 <= i < |head[1..]| && head[1..][i].hash == hash && head[1..][i].name == name;
        assert head[i + 1].hash == hash && head[i + 1].name == name;
      }
    }
  }

  /** Looking in one chain decides for the whole table. */
  lemma LookupIsHolds(table: seq<seq<DevEntry>>, jhash: string -> nat, name: string)
    requires Placed(table, jhash)
    ensures Chain(table[jhash(name) % HASH_SIZE], name, jhash(name)) <==> Holds(table, name)
  {
    var k := jhash(name) % HASH_SIZE;
    forall i | 0 <= i < |table[k]| ensures |table[k][i].name| < IFNAMSIZ {
      assert EntryPlaced(table[k][i], k, jhash);
    }
    ChainFinds(table[k], name, jhash(name));
    if Holds(table, name) {
      var k', i :| 0 <= k' < |table| && 0 <= i < |table[k']| && table[k'][i].name == name;
      assert EntryPlaced(table[k'][i], k', jhash);
    }
  }

  /** `hlist_add_head` of a name that is not there. */
  lemma AddHead(table: seq<seq<DevEntry>>, jhash: string -> nat, name: string)
    requires Placed(table, jhash) && !Holds(table, name) && |name| < IFNAMSIZ
    ensures var k, h := jhash(name) % HASH_SIZE, jhash(name);
      var table' := table[k := [DevEntry(name, h)] + table[k]];
      Placed(table', jhash) && forall s :: Holds(table', s) <==> s == name || Holds(table, s)
  {
    var k, h := jhash(name) % HASH_SIZE, jhash(name);
    var chain := [DevEntry(name, h)] + table[k];
    var table' := table[k := chain];
    assert chain[0].name == name && forall i :: 0 < i < |chain| ==> chain[i] == table[k][i - 1];
    forall k', i | 0 <= k' < HASH_SIZE && 0 <= i < |table'[k']| ensures EntryPlaced(table'[k'][i], k', jhash) {
      if k' == k && i > 0 {
        assert EntryPlaced(table[k][i - 1], k, jhash);
      } else if k' != k {
        assert EntryPlaced(table[k'][i], k', jhash);
      }
    }
    forall i, j | 0 <= i < j < |chain| ensures chain[i].name != chain[j].name {
      if i > 0 {
        assert table[k][i - 1].name != table[k][j - 1].name;
      }
    }
    forall s ensures Holds(table', s) <==> s == name || Holds(table, s) {
      HeadHolds(table, k, DevEntry(name, h), s);
    }
  }

  lemma HeadHolds(table: seq<seq<DevEntry>>, k: nat, e: DevEntry, s: string)
    requires k < |table|
    ensures Holds(table[k := [e] + table[k]], s) <==> s == e.name || Holds(table, s)
  {
    var chain := [e] + table[k];
    var table' := table[k := chain];
    assert table'[k][0] == e;
    if Holds(table, s) {
      var k', i :| 0 <= k' < |table| && 0 <= i < |table[k']| && table[k'][i].name == s;
      assert table'[k'][if k' == k then i + 1 else i].name == s;
    }
    if Holds(table', s) && s != e.name {
      var k', i :| 0 <= k' < |table'| && 0 <= i < |table'[k']| && table'[k'][i].name == s;
      assert table[k'][if k' == k then i - 1 else i].name == s;
    }
  }

  /** What `devset_ignore` answers on a given table. */
  ghost function TableIgnores(table: seq<seq<DevEntry>>, whiteBlack: int, jhash: string -> nat, s: string): bool
    requires |table| == HASH_SIZE
  {
    if whiteBlack == IPS_NONE then true
    else if Chain(table[jhash(s) % HASH_SIZE], s, jhash(s)) then whiteBlack == IPS_BLACK
    else whiteBlack == IPS_WHITE
  }

  /** The table holds exactly the names of a list. */
  ghost predicate HoldsList(table: seq<seq<DevEntry>>, names: seq<string>) {
    forall s :: Holds(table, s) <==> s in names
  }

  /** The chained table answers every name as the plain list does, collisions or not. Before a list is
      accepted it ignores every name, and under a list that is neither white nor black it ignores none. */
  lemma TableIsList(table: seq<seq<DevEntry>>, names: seq<string>, whiteBlack: int, jhash: string -> nat,
                    s: string)
    requires Placed(table, jhash) && HoldsList(table, names)
    ensures TableIgnores(table, whiteBlack, jhash, s)
         == if whiteBlack == IPS_NONE then true
            else if IsColour(whiteBlack) then ListIgnores(names, whiteBlack == IPS_BLACK, s)
            else false
    ensures TableIgnores(table, whiteBlack, jhash, s)
        <==> whiteBlack == 2 || (whiteBlack == 1 && s in names) || (whiteBlack == 0 && s !in names)
  {
    LookupIsHolds(table, jhash, s);
  }

  predicate IsColour(whiteBlack: int) { whiteBlack == IPS_WHITE || whiteBlack == IPS_BLACK }

  /** The two sets give the same answer on every name. */
  ghost predicate Agree(table: seq<seq<DevEntry>>, sorted: seq<string>, hashes: seq<nat>, whiteBlack: int,
                        jhash: string -> nat, jhash2: string -> nat)
    requires |table| == HASH_SIZE && |sorted| == |hashes|
  {
    forall s :: TableIgnores(table, whiteBlack, jhash, s)
             == ArrayIgnores(sorted, hashes, whiteBlack == IPS_BLACK, IFNAMSIZ, jhash2, s)
  }

  /** For one list, in whatever order the arrays hold it, and each set with its own hash: a white or black
      list is answered alike on every name exactly when the arrays' hash tells the listed names apart, no list
      exactly when it is empty, and a list of no colour never. */
  lemma SetsAgreeIff(table: seq<seq<DevEntry>>, names: seq<string>, sorted: seq<string>, hashes: seq<nat>,
                     whiteBlack: int, jhash: string -> nat, jhash2: string -> nat)
    requires Placed(table, jhash) && HoldsList(table, names)
    requires Ordered(sorted, hashes, IFNAMSIZ, jhash2) && multiset(sorted) == multiset(names)
    ensures Agree(table, sorted, hashes, whiteBlack, jhash, jhash2)
       <==> if whiteBlack == IPS_NONE then names == [] else IsColour(whiteBlack) && Distinguishes(jhash2, names)
  {
    forall s ensures s in sorted <==> s in names {
      assert s in multiset(sorted) <==> s in multiset(names);
    }
    assert HoldsList(table, sorted) && (Distinguishes(jhash2, names) <==> Distinguishes(jhash2, sorted));
    assert |multiset(sorted)| == |sorted| && |multiset(names)| == |names|;
    if whiteBlack == IPS_NONE {
      NoListAgrees(table, sorted, hashes, jhash, jhash2);
    } else if IsColour(whiteBlack) {
      ColourAgrees(table, sorted, hashes, whiteBlack, jhash, jhash2);
    } else {
      NoColourDisagrees(table, sorted, hashes, whiteBlack, jhash, jhash2);
    }
  }

  lemma ColourAgrees(table: seq<seq<DevEntry>>, sorted: seq<string>, hashes: seq<nat>, whiteBlack: int,
                     jhash: string -> nat, jhash2: string -> nat)
    requires Placed(table, jhash) && HoldsList(table, sorted) && IsColour(whiteBlack)
    requires Ordered(sorted, hashes, IFNAMSIZ, jhash2)
    ensures Agree(table, sorted, hashes, whiteBlack, jhash, jhash2) <==> Distinguishes(jhash2, sorted)
  {
    var black := whiteBlack == IPS_BLACK;
    forall s ensures TableIgnores(table, whiteBlack, jhash, s) == ListIgnores(sorted, black, s) {
      TableIsList(table, sorted, whiteBlack, jhash, s);
    }
    RightOnAllIff(sorted, hashes, black, IFNAMSIZ, jhash2);
    if !Distinguishes(jhash2, sorted) {
      var s :| ArrayIgnores(sorted, hashes, black, IFNAMSIZ, jhash2, s) != ListIgnores(sorted, black, s);
      assert TableIgnores(table, whiteBlack, jhash, s) == ListIgnores(sorted, black, s);
    }
  }

  lemma NoListAgrees(table: seq<seq<DevEntry>>, sorted: seq<string>, hashes: seq<nat>, jhash: string -> nat,
                     jhash2: string -> nat)
    requires |table| == HASH_SIZE && Ordered(sorted, hashes, IFNAMSIZ, jhash2)
    ensures Agree(table, sorted, hashes, IPS_NONE, jhash, jhash2) <==> sorted == []
  {
    if sorted != [] {
      var s := OneIsRight(sorted, hashes, false, IFNAMSIZ, jhash2);
      assert TableIgnores(table, IPS_NONE, jhash, s);
    }
  }

  lemma NoColourDisagrees(table: seq<seq<DevEntry>>, sorted: seq<string>, hashes: seq<nat>, whiteBlack: int,
                          jhash: string -> nat, jhash2: string -> nat)
    requires |table| == HASH_SIZE && Ordered(sorted, hashes, IFNAMSIZ, jhash2)
    requires whiteBlack != IPS_NONE && !IsColour(whiteBlack)
    ensures !Agree(table, sorted, hashes, whiteBlack, jhash, jhash2)
  {
    var s := seq(IFNAMSIZ, _ => 'x');
    assert s !in sorted;
    AnswersRight(sorted, hashes, false, IFNAMSIZ, jhash2, s);
    assert !TableIgnores(table, whiteBlack, jhash, s);
  }

  class DevSet {
    var table: array?<seq<DevEntry>>
    var whiteBlack: int
    const jhash: string -> nat

    constructor (jhash: string -> nat)
      ensures table == null && whiteBlack == IPS_NONE && this.jhash == jhash
    {
      table, whiteBlack := null, IPS_NONE;
      this.jhash := jhash;
    }

    /** The table is well placed, and empty until a list has been accepted. */
    ghost predicate Valid()
      reads this, table
    {
      table != null ==>
        && Placed(table[..], jhash)
        && (whiteBlack == IPS_NONE ==> forall s :: !Holds(table[..], s))
    }

    /** `devset_init` when memory suffices. */
    method Init()
      modifies this`table
      ensures table != null && fresh(table) && table.Length == 256
      ensures forall i :: 0 <= i < HASH_SIZE ==> table[i] == []
    {
      table := new seq<DevEntry>[HASH_SIZE](_ => []);
    }

    method InHlist(name: string, hash: nat, head: seq<DevEntry>) returns (found: bool)
      ensures found == Chain(head, name, hash)
    {
      for i := 0 to |head|
        invariant Chain(head, name, hash) == Chain(head[i..], name, hash)
      {
        if hash == head[i].hash && StrnEq(head[i].name, name, IFNAMSIZ) {
          return true;
        }
        assert head[i..][1..] == head[i + 1..];
      }
      return false;
    }

    /** One name of the list; one that is there already is skipped. */
    method AddName(name: string)
      requires table != null && Placed(table[..], jhash) && |name| < 16
      modifies table
      ensures Placed(table[..], jhash)
      ensures forall s :: Holds(table[..], s) <==> s == name || Holds(old(table[..]), s)
    {
      var hash := jhash(name);
      var k := hash % HASH_SIZE;
      var there := InHlist(name, hash, table[k]);
      LookupIsHolds(table[..], jhash, name);
      if there {
        return;
      }
      AddHead(table[..], jhash, name);
      ghost var before := table[..];
      table[k] := [DevEntry(name, hash)] + table[k];
      assert table[..] == before[k := [DevEntry(name, hash)] + before[k]];
    }

    /** `devset_add` when memory suffices: a refusal changes nothing, an accepted list becomes the contents. */
    method Add(l: Option<NameList>) returns (err: int)
      requires Valid()
      requires l.Some? && l.value.names.Some? ==>
        forall i :: 0 <= i < |l.value.names.value| ==> |l.value.names.value[i]| < 16
      modifies this`whiteBlack, table
      ensures Valid()
      ensures err == (if table == null then -12 else if old(whiteBlack) != 2 then -17
                      else if l == None || l.value.names == None then -14
                      else if l.value.whiteBlack == 2 then -8 else 0)
      ensures err != 0 ==> whiteBlack == old(whiteBlack) && (table != null ==> table[..] == old(table[..]))
      ensures err == 0 ==>
        whiteBlack == l.value.whiteBlack && HoldsList(table[..], l.value.names.value)
    {
      if table == null {
        return ENOMEM;
      }
      if whiteBlack != IPS_NONE {
        return EEXIST;
      }
      if l == None {
        return EFAULT;
      }
      if l.value.names == None {
        return EFAULT;
      }
      if l.value.whiteBlack == IPS_NONE {
        return ENOEXEC;
      }
      whiteBlack := l.value.whiteBlack;
      var names := l.value.names.value;
      for ii := 0 to |names|
        invariant Placed(table[..], jhash) && whiteBlack == l.value.whiteBlack
        invariant forall s :: Holds(table[..], s) <==> s in names[..ii]
      {
        AddName(names[ii]);
        assert names[..ii + 1] == names[..ii] + [names[ii]];
      }
      assert names[..|names|] == names;
      return 0;
    }

    method Ignore(devname: string) returns (r: bool)
      requires Valid() && table != null
      ensures r == TableIgnores(table[..], whiteBlack, jhash, devname)
    {
      var hash := jhash(devname);
      if whiteBlack == IPS_NONE {
        return true;
      }
      var found := InHlist(devname, hash, table[hash % HASH_SIZE]);
      if found {
        return whiteBlack == IPS_BLACK;
      } else {
        return whiteBlack == IPS_WHITE;
      }
    }

    /** `devset_exit`: every chain emptied, then the table given up. */
    method Exit()
      requires table != null
      modifies this, table
      ensures table == null && whiteBlack == IPS_NONE
      ensures forall i :: 0 <= i < old(table).Length ==> old(table)[i] == []
    {
      for i := 0 to table.Length
        invariant table == old(table)
        invariant forall j :: 0 <= j < i ==> table[j] == []
      {
        table[i] := [];
      }
      table := null;
      whiteBlack := IPS_NONE;
    }
  }
}
