/** internal/storage/postgres/migrations.go: applying the embedded scripts in name
    order, each in one transaction with the row that records it. */
module Migrations {
  import opened Basics

  datatype Entry = Entry(name: string, isDir: bool)

  // ---------- sorting names ----------

  /** Go's string order; for UTF-8 the order of bytes is the order of code points. */
  predicate Less(a: string, b: string) {
    b != "" && (a == "" || a[0] < b[0] || (a[0] == b[0] && Less(a[1..], b[1..])))
  }

  lemma {:induction false} LessTransitive(a: string, b: string, c: string)
    requires Less(a, b) && Less(b, c)
    ensures Less(a, c)
  {
    if a != "" && a[0] == b[0] && b[0] == c[0] {
      LessTransitive(a[1..], b[1..], c[1..]);
    }
  }

  lemma {:induction false} LessTotal(a: string, b: string)
    ensures a == b || Less(a, b) || Less(b, a)
    ensures !(Less(a, b) && Less(b, a)) && !Less(a, a)
  {
    if a != "" && b != "" {
      LessTotal(a[1..], b[1..]);
      assert a == [a[0]] + a[1..] && b == [b[0]] + b[1..];
    }
    if a != "" {
      LessTotal(a[1..], a[1..]);
    }
  }

  predicate Sorted(names: seq<string>) {
    forall i, j :: 0 <= i < j < |names| ==> Less(names[i], names[j])
  }

  method InsertSorted(names: seq<string>, name: string) returns (r: seq<string>)
    requires Sorted(names) && name !in names
    ensures Sorted(r) && multiset(r) == multiset(names) + multiset{name}
  {
    hide Less, Sorted;
    var i := 0;
    while i < |names| && Less(names[i], name)
      invariant 0 <= i <= |names|
      invariant forall k | 0 <= k < i :: Less(names[k], name)
    {
      i := i + 1;
    }
    FitsAt(names, name, i);
    StaysSorted(names, name, i);
    r := names[..i] + [name] + names[i..];
    assert names == names[..i] + names[i..];
  }

  lemma StaysSorted(names: seq<string>, name: string, i: nat)
    requires Sorted(names) && i <= |names|
    requires forall k | 0 <= k < i :: Less(names[k], name)
    requires forall k | i <= k < |names| :: Less(name, names[k])
    ensures Sorted(names[..i] + [name] + names[i..])
  {
    hide Less;
    var r := names[..i] + [name] + names[i..];
    forall a, b | 0 <= a < b < |r|
      ensures Less(r[a], r[b])
    {
      assert r[a] == if a < i then names[a] else if a == i then name else names[a - 1];
      assert r[b] == if b < i then names[b] else if b == i then name else names[b - 1];
    }
  }

  /** Where the scan stops, the name is less than everything from there on. */
  lemma FitsAt(names: seq<string>, name: string, i: nat)
    requires Sorted(names) && name !in names && i <= |names|
    requires i < |names| ==> !Less(names[i], name)
    ensures forall k | i <= k < |names| :: Less(name, names[k])
  {
    hide Less;
    if i < |names| {
      assert names[i] in names;
      LessTotal(name, names[i]);
      forall k | i < k < |names|
        ensures Less(name, names[k])
      {
        LessTransitive(name, names[i], names[k]);
      }
    }
  }

  predicate IsScript(e: Entry) { !e.isDir && |e.name| >= 4 && e.name[|e.name| - 4..] == ".sql" }

  /** The names of the scripts in a directory, sorted. */
  method ScriptNames(entries: seq<Entry>) returns (names: seq<string>)
    requires forall i, j :: 0 <= i < j < |entries| ==> entries[i].name != entries[j].name
    ensures Sorted(names)
    ensures forall name :: name in names <==> exists e | e in entries :: IsScript(e) && e.name == name
  {
    names := [];
    for i := 0 to |entries|
      invariant Sorted(names)
      invariant forall name ::
        name in names <==> exists k | 0 <= k < i :: IsScript(entries[k]) && entries[k].name == name
    {
      if IsScript(entries[i]) {
        var more := InsertSorted(names, entries[i].name);
        forall name
          ensures name in more <==> name in names || name == entries[i].name
        {
          assert name in more <==> name in multiset(more);
        }
        names := more;
      }
    }
    forall name
      ensures name in names <==> exists e | e in entries :: IsScript(e) && e.name == name
    {
      if exists e | e in entries :: IsScript(e) && e.name == name {
        var e :| e in entries && IsScript(e) && e.name == name;
        var k :| 0 <= k < |entries| && entries[k] == e;
      }
    }
  }

  // ---------- applying ----------

  /** The names that are not on record, in order. */
  function Pending(names: seq<string>, applied: set<string>): seq<string> {
    if names == [] then []
    else
      var init, last := names[..|names| - 1], names[|names| - 1];
      if last in applied then Pending(init, applied) else Pending(init, applied) + [last]
  }

  lemma PendingAppend(names: seq<string>, name: string, applied: set<string>)
    ensures Pending(names + [name], applied) ==
      if name in applied then Pending(names, applied) else Pending(names, applied) + [name]
  {
    assert (names + [name])[..|names|] == names;
  }

  lemma {:induction false} PendingPrefix(names: seq<string>, applied: set<string>, k: nat)
    requires k <= |names|
    ensures Pending(names[..k], applied) <= Pending(names, applied)
  {
    if k == |names| {
      assert names[..k] == names;
    } else {
      PendingPrefix(names[..|names| - 1], applied, k);
      assert names[..|names| - 1][..k] == names[..k];
    }
  }

  lemma {:induction false} PendingMembers(names: seq<string>, applied: set<string>)
    ensures forall name :: name in Pending(names, applied) <==> name in names && name !in applied
  {
    if names != [] {
      PendingMembers(names[..|names| - 1], applied);
      assert names == names[..|names| - 1] + [names[|names| - 1]];
    }
  }

  function Names(committed: seq<string>): set<string> { set name | name in committed }

  lemma SortedDistinct(names: seq<string>)
    requires Sorted(names)
    ensures Distinct(names)
  {
    forall i, j | 0 <= i < j < |names|
      ensures names[i] != names[j]
    {
      LessTotal(names[i], names[j]);
    }
  }

  class Database {
    /** The rows of schema_migrations. */
    var applied: set<string>
    /** The scripts whose effects have been committed, in order. */
    var executed: seq<string>

    constructor ()
      ensures applied == {} && executed == [] && Recorded()
    {
      applied, executed := {}, [];
    }

    /** The scripts on record are those committed, each of them once. */
    ghost predicate Recorded()
      reads this
    {
      Distinct(executed) && applied == Names(executed)
    }

    /** One start of the server, with the scripts of its release. It gets through `budget`
        database statements before something fails or the process ends. Some number `done`
        of the scripts that were not on record have been committed, in name order and each
        with its row; all of them if the start ends without error. */
    method ApplyMigrations(names: seq<string>, budget: nat) returns (error: Option<string>, ghost done: nat)
      requires Sorted(names) && Recorded()
      modifies this
      ensures Recorded() && done <= |Pending(names, old(applied))|
      ensures executed == old(executed) + Pending(names, old(applied))[..done]
      ensures error.None? ==> done == |Pending(names, old(applied))|
      ensures budget >= 6 * |names| ==> error.None?
    {
      hide Less, Pending;
      ghost var pending := Pending(names, applied);
      SortedDistinct(names);
      NothingPending(applied);
      var left: int := budget;
      done := 0;
      for i := 0 to |names|
        invariant Recorded() && done == |Pending(names[..i], old(applied))| <= |pending|
        invariant Pending(names[..i], old(applied)) == pending[..done]
        invariant executed == old(executed) + pending[..done]
        invariant left >= 0 && left >= budget - 6 * i
      {
        var name := names[i];
        OneMore(names, old(applied), i);
        // isMigrationApplied
        if left < 2 {
          return Some("failed"), done;
        }
        left := left - 2;
        assert name in applied <==> name in old(applied) by {
          OnRecord(names, old(applied), i, old(executed), done);
        }
        if name in applied {
          continue;
        }
        // begin, script, record, commit
        if left < 4 {
          return Some("failed"), done;
        }
        left := left - 4;
        assert pending[..done + 1] == pending[..done] + [name];
        executed, applied := executed + [name], applied + {name};
        done := done + 1;
      }
      assert names[..|names|] == names;
      return None, done;
    }

    /** The step from one name to the next. */
    lemma OneMore(names: seq<string>, applied: set<string>, i: nat)
      requires i < |names|
      ensures Pending(names[..i + 1], applied) ==
        Pending(names[..i], applied) + (if names[i] in applied then [] else [names[i]])
      ensures Pending(names[..i + 1], applied) <= Pending(names, applied)
    {
      assert names[..i + 1] == names[..i] + [names[i]];
      PendingAppend(names[..i], names[i], applied);
      PendingPrefix(names, applied, i + 1);
    }

    /** The scripts committed so far in this start come before the `i`-th. */
    lemma OnRecord(names: seq<string>, was: set<string>, i: nat, before: seq<string>, done: nat)
      requires Distinct(names) && i < |names| && was == Names(before)
      requires done <= |Pending(names, was)| && Pending(names[..i], was) == Pending(names, was)[..done]
      ensures names[i] in Names(before + Pending(names, was)[..done]) <==> names[i] in was
    {
      PendingMembers(names[..i], was);
      assert names[i] !in names[..i];
    }

    /** Starts after starts of releases after releases, each breaking off anywhere. Every
        script is committed at most once, and once a start of its release has got through;
        if each release's list begins with the one before it, the scripts committed are at
        any time the first ones of the latest list, in order. */
    method Restarts(releases: seq<Release>)
      requires (forall r | r in releases :: Sorted(r.names)) && applied == {} && executed == []
      modifies this
      ensures Recorded()
      ensures forall r, name | r in releases && r.budget >= 6 * |r.names| && name in r.names :: name in executed
      ensures Grows(releases) && releases != [] ==> executed <= releases[|releases| - 1].names
      ensures Grows(releases) ==> forall r | r in releases && r.budget >= 6 * |r.names| :: r.names <= executed
    {
      hide Less, Pending;
      for i := 0 to |releases|
        invariant Recorded()
        invariant forall k, name | 0 <= k < i && Enough(releases[k]) && name in releases[k].names :: name in executed
        invariant Grows(releases) ==> executed <= if i == 0 then [] else releases[i - 1].names
        invariant Grows(releases) ==> forall k | 0 <= k < i && Enough(releases[k]) :: releases[k].names <= executed
      {
        ghost var before := executed;
        var names := releases[i].names;
        var error, done := ApplyMigrations(names, releases[i].budget);
        PendingMembers(names, Names(before));
        forall name | Enough(releases[i]) && name in names
          ensures name in executed
        {
          assert name in before || name in Pending(names, Names(before));
        }
        if Grows(releases) {
          CommitsOn(names, before, done);
        }
      }
    }
  }

  /** The sorted scripts of a release, and how many statements a start of it gets through. */
  datatype Release = Release(names: seq<string>, budget: nat)

  predicate Enough(r: Release) { r.budget >= 6 * |r.names| }

  /** Each list begins with the ones before it. */
  predicate Grows(releases: seq<Release>) {
    forall i, j :: 0 <= i < j < |releases| ==> releases[i].names <= releases[j].names
  }

  /** With the first `k` scripts on record, the others are pending. */
  lemma {:induction false} PendingOfPrefix(names: seq<string>, k: nat)
    requires Sorted(names) && k <= |names|
    ensures Pending(names, Names(names[..k])) == names[k..]
  {
    hide Less;
    SortedDistinct(names);
    if k == |names| {
      AllOnRecord(names, Names(names[..k]));
    } else {
      var init, last := names[..|names| - 1], names[|names| - 1];
      PendingOfPrefix(init, k);
      assert init[..k] == names[..k];
      assert last !in names[..k];
      assert names[k..] == init[k..] + [last];
    }
  }

  lemma CommitsOn(names: seq<string>, committed: seq<string>, done: nat)
    requires Sorted(names) && committed <= names && done <= |Pending(names, Names(committed))|
    ensures committed + Pending(names, Names(committed))[..done] <= names
    ensures done == |Pending(names, Names(committed))| ==> committed + Pending(names, Names(committed))[..done] == names
  {
    hide Less, Pending;
    assert names[..|committed|] == committed;
    PendingOfPrefix(names, |committed|);
    assert committed + names[|committed|..][..done] == names[..|committed| + done];
  }

  lemma {:induction false} AllOnRecord(names: seq<string>, applied: set<string>)
    requires forall name | name in names :: name in applied
    ensures Pending(names, applied) == []
  {
    if names != [] {
      var init, last := names[..|names| - 1], names[|names| - 1];
      assert forall name | name in init :: name in names;
      assert last in names;
      AllOnRecord(init, applied);
    }
  }

  // ---------- committing in name order ----------

  lemma NamesEmpty(a: seq<string>)
    ensures Names(a) == {} <==> a == []
  {
    if a != [] {
      assert a[0] in Names(a);
    }
  }

  lemma {:induction false} SortedUnique(a: seq<string>, b: seq<string>)
    requires Sorted(a) && Sorted(b) && Names(a) == Names(b)
    ensures a == b
  {
    if a == [] || b == [] {
      NamesEmpty(a);
      NamesEmpty(b);
    } else {
      var x, y := a[|a| - 1], b[|b| - 1];
      LastIsGreatest(a, y);
      LastIsGreatest(b, x);
      LessTotal(x, y);
      NamesOfInit(a);
      NamesOfInit(b);
      SortedUnique(a[..|a| - 1], b[..|b| - 1]);
      assert a == a[..|a| - 1] + [x] && b == b[..|b| - 1] + [y];
    }
  }

  lemma LastIsGreatest(a: seq<string>, name: string)
    requires Sorted(a) && a != [] && (name in a || name in Names(a))
    ensures name == a[|a| - 1] || Less(name, a[|a| - 1])
  {
    hide Less;
  }

  lemma NamesOfInit(a: seq<string>)
    requires Sorted(a) && a != []
    ensures Names(a[..|a| - 1]) == Names(a) - {a[|a| - 1]}
  {
    hide Less;
    SortedDistinct(a);
    assert a == a[..|a| - 1] + [a[|a| - 1]];
  }

  /** Every name of the list that has not been committed sorts after all that have. */
  predicate NewSortLast(names: seq<string>, committed: seq<string>) {
    forall n, d | n in names && n !in committed && d in committed :: Less(d, n)
  }

  lemma {:induction false} CommittedFirst(names: seq<string>, committed: seq<string>)
    requires Sorted(names) && Sorted(committed) && (forall d | d in committed :: d in names)
    requires NewSortLast(names, committed)
    ensures committed <= names
  {
    if names == [] {
      assert Names(committed) == {};
      NamesEmpty(committed);
    } else {
      hide Less;
      var init, last := names[..|names| - 1], names[|names| - 1];
      assert names == init + [last];
      if last in committed {
        AllCommitted(names, committed);
        SortedUnique(names, committed);
      } else {
        CommittedFirst(init, committed);
      }
    }
  }

  lemma AllCommitted(names: seq<string>, committed: seq<string>)
    requires Sorted(names) && names != [] && names[|names| - 1] in committed
    requires (forall d | d in committed :: d in names) && NewSortLast(names, committed)
    ensures Names(names) == Names(committed)
  {
    hide Less;
    forall n | n in names
      ensures n in committed
    {
      LastIsGreatest(names, n);
      LessTotal(n, names[|names| - 1]);
    }
  }

  /** Exactly when a start commits in name order, at whatever point it breaks off: when what
      had been committed is sorted and part of the list, and every new name sorts after it. */
  lemma InNameOrderExactly(names: seq<string>, committed: seq<string>, done: nat)
    requires Sorted(names) && done <= |Pending(names, Names(committed))|
    ensures committed + Pending(names, Names(committed))[..done] <= names
      <==> Sorted(committed) && (forall d | d in committed :: d in names) && NewSortLast(names, committed)
  {
    hide Less, Pending;
    if committed + Pending(names, Names(committed))[..done] <= names {
      assert forall k | 0 <= k < |committed| :: names[k] == committed[k];
      forall n, d | n in names && n !in committed && d in committed
        ensures Less(d, n)
      {
        var i :| 0 <= i < |names| && names[i] == n;
        var j :| 0 <= j < |committed| && committed[j] == d;
        assert j < |committed| <= i;
      }
    }
    if Sorted(committed) && (forall d | d in committed :: d in names) && NewSortLast(names, committed) {
      CommittedFirst(names, committed);
      CommitsOn(names, committed, done);
    }
  }

  /** A release that adds a script sorting before one already committed, as 0.sql after
      1.sql: it is committed later. */
  lemma EarlierNameCommittedLater(a: string, b: string)
    requires Less(a, b)
    ensures Sorted([a, b]) && Pending([a, b], Names([b])) == [a]
    ensures !([b] + [a] <= [a, b])
  {
    hide Less, Pending;
    LessTotal(a, b);
    assert [a, b] == [] + [a] + [b];
    NothingPending(Names([b]));
    PendingAppend([], a, Names([b]));
    PendingAppend([] + [a], b, Names([b]));
    assert ([b] + [a])[0] == b;
  }

  lemma NothingPending(applied: set<string>)
    ensures Pending([], applied) == []
  {
  }

  // ---------- the order of names ----------

  /** A name comes before its extensions. */
  lemma {:induction false} LessPrefix(p: string, c: char, x: string)
    ensures Less(p, p + [c] + x)
  {
    if p != "" {
      assert (p + [c] + x)[1..] == p[1..] + [c] + x;
      LessPrefix(p[1..], c, x);
    }
  }

  /** The first character in which two names differ decides. */
  lemma {:induction false} LessAt(p: string, c: char, d: char, x: string, y: string)
    requires c < d
    ensures Less(p + [c] + x, p + [d] + y)
  {
    if p == "" {
      assert (p + [c] + x)[0] == c && (p + [d] + y)[0] == d;
    } else {
      assert (p + [c] + x)[1..] == p[1..] + [c] + x;
      assert (p + [d] + y)[1..] == p[1..] + [d] + y;
      LessAt(p[1..], c, d, x, y);
    }
  }

  /** A script is a file whose name ends in ".sql". */
  lemma ScriptsByName(e: Entry, base: string)
    ensures IsScript(Entry(base + ".sql", false)) && !IsScript(Entry(base, true))
    ensures IsScript(e) ==> !e.isDir && |e.name| >= 4 && e.name == e.name[..|e.name| - 4] + ".sql"
  {
    assert (base + ".sql")[|base|..] == ".sql";
  }

  /** The repository's scripts. */
  const SCRIPTS: seq<string> :=
    ["001_init.sql", "002_scheduled_publish.sql", "003_gscu1b_device_type.sql", "004_quick_actions.sql"]

  lemma DigitDecides(a: string, b: string, k: nat)
    requires k < |a| && k < |b| && a[..k] == b[..k] && a[k] < b[k]
    ensures Less(a, b)
  {
    hide Less;
    LessAt(a[..k], a[k], b[k], a[k + 1..], b[k + 1..]);
    assert a == a[..k] + [a[k]] + a[k + 1..] && b == b[..k] + [b[k]] + b[k + 1..];
  }

  lemma ThirdDigit(i: nat)
    requires i < |SCRIPTS|
    ensures |SCRIPTS[i]| > 2 && SCRIPTS[i][..2] == "00" && SCRIPTS[i][2] == "1234"[i]
  {
    if i == 0 {
      assert SCRIPTS[0][0] == '0' && SCRIPTS[0][1] == '0';
    } else if i == 1 {
      assert SCRIPTS[1][0] == '0' && SCRIPTS[1][1] == '0';
    } else if i == 2 {
      assert SCRIPTS[2][0] == '0' && SCRIPTS[2][1] == '0';
    } else {
      assert SCRIPTS[3][0] == '0' && SCRIPTS[3][1] == '0';
    }
  }

  lemma ScriptsInOrder()
    ensures Sorted(SCRIPTS)
  {
    hide Less;
    forall i, j | 0 <= i < j < |SCRIPTS|
      ensures Less(SCRIPTS[i], SCRIPTS[j])
    {
      ThirdDigit(i);
      ThirdDigit(j);
      DigitDecides(SCRIPTS[i], SCRIPTS[j], 2);
    }
  }

  /** Listed in whatever order, they are found in this one. */
  lemma RepositoryOrder(names: seq<string>)
    requires Sorted(names) && forall name :: name in names <==> name in SCRIPTS
    ensures names == SCRIPTS
  {
    hide Less;
    ScriptsInOrder();
    SortedUnique(names, SCRIPTS);
  }
}
