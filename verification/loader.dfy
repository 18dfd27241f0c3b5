/**
 The dashboard-list loader of codis-fe (`ConfigLoader` in cmd/fe/main.go).

 The loader remembers the modification time of the last dashboard list it
 loaded successfully. Each poll observes the file's current modification time
 (or a stat failure) and, only when that time differs from the remembered one,
 reads and decodes the file into a `name -> dashboard host` map.

 File-system access and JSON decoding are not modelled byte by byte: their
 outcomes are inputs (`Stat` and `Contents`).
 */
module Loader {

  /** An instant. Go's `time.Time.Equal` compares instants, which is `==` here. */
  type Time = int

  /** The zero `time.Time` a fresh `ConfigLoader` starts from. */
  const ZeroTime: Time := 0

  /** One decoded element of the dashboard list: `{"name": ..., "dashboard": ...}`. */
  datatype Record = Record(name: string, dashboard: string)

  /** Outcome of `os.Stat` on the dashboard-list path. */
  datatype Stat = StatFailed | Stat(modTime: Time)

  /** Outcome of reading the file and decoding it as a JSON array of records. */
  datatype Contents = ReadFailed | DecodeFailed | Decoded(records: seq<Record>)

  /** Why a reload failed. */
  datatype LoadError = StatError | ReadError | DecodeError

  /** Result of `Load`: an error, or the (always non-nil) name -> host map. */
  datatype LoadResult = LoadFailed(error: LoadError) | Loaded(hosts: map<string, string>)

  /**
   Result of `Reload`. The Go code returns `(nil, nil)` for an unchanged file,
   `(m, nil)` with a non-nil `m` for a fresh load and `(nil, err)` on failure.
   */
  datatype ReloadResult = Unchanged | Changed(hosts: map<string, string>) | Failed(error: LoadError)

  /** The loader's only state: the modification time of the last successful load. */
  datatype ConfigLoader = ConfigLoader(last: Time)

  /** The loader as `&ConfigLoader{}` creates it. */
  const Initial: ConfigLoader := ConfigLoader(ZeroTime)

  /** The new loader state together with what `Reload` returned. */
  datatype Reloaded = Reloaded(loader: ConfigLoader, result: ReloadResult)

  /** Every name that some record in `list` carries. */
  function RecordNames(list: seq<Record>): set<string>
  {
    set i | 0 <= i < |list| :: list[i].name
  }

  /** `host` is the dashboard of the LAST record in `list` that is named `name`. */
  ghost predicate IsLastRecord(list: seq<Record>, name: string, host: string)
  {
    exists i :: 0 <= i < |list| && list[i] == Record(name, host) && NoLaterRecord(list, name, i)
  }

  /** No record after position `i` is named `name`. */
  ghost predicate NoLaterRecord(list: seq<Record>, name: string, i: nat)
  {
    forall j :: i < j < |list| ==> list[j].name != name
  }

  /**
   The map the loop over the decoded list builds, one assignment
   `m[e.Name] = e.Dashboard` per record, in list order: its keys are exactly
   the names in the list and each name maps to its last record's dashboard.
   Empty names and empty dashboards are kept; `ReverseProxy.Update` drops them.
   */
  function Collect(list: seq<Record>): (m: map<string, string>)
    ensures m.Keys == RecordNames(list)
    ensures forall n :: n in m ==> IsLastRecord(list, n, m[n])
  {
    if |list| == 0 then map[]
    else
      var init := list[..|list| - 1];
      var last := list[|list| - 1];
      var prev := Collect(init);
      var m := prev[last.name := last.dashboard];
      CollectStep(init, last, prev, m);
      assert init + [last] == list;
      m
  }

  /** One step of `Collect`: appending a record keeps both halves of its contract. */
  lemma CollectStep(init: seq<Record>, last: Record, prev: map<string, string>, m: map<string, string>)
    requires prev.Keys == RecordNames(init)
    requires forall n :: n in prev ==> IsLastRecord(init, n, prev[n])
    requires m == prev[last.name := last.dashboard]
    ensures m.Keys == RecordNames(init + [last])
    ensures forall n :: n in m ==> IsLastRecord(init + [last], n, m[n])
  {
    var list := init + [last];
    assert RecordNames(list) == RecordNames(init) + {last.name} by {
      forall n | n in RecordNames(list) ensures n in RecordNames(init) + {last.name} {
        var i :| 0 <= i < |list| && list[i].name == n;
        if i < |init| { assert init[i] == list[i]; }
      }
      forall n | n in RecordNames(init) ensures n in RecordNames(list) {
        var i :| 0 <= i < |init| && init[i].name == n;
        assert list[i] == init[i];
      }
      assert list[|init|] == last;
    }
    forall n | n in m ensures IsLastRecord(list, n, m[n]) {
      if n == last.name {
        assert list[|init|] == Record(n, m[n]);
        assert NoLaterRecord(list, n, |init|);
      } else {
        var i :| 0 <= i < |init| && init[i] == Record(n, prev[n]) && NoLaterRecord(init, n, i);
        assert list[i] == Record(n, m[n]);
        assert NoLaterRecord(list, n, i) by {
          forall j | i < j < |list| ensures list[j].name != n {
            if j < |init| { assert list[j] == init[j]; } else { assert list[j] == last; }
          }
        }
      }
    }
  }

  /**
   `Load` after the file has been read and decoded: a read or decode failure is
   returned as the error, otherwise the records are collected into a map.
   */
  function Load(contents: Contents): (r: LoadResult)
    ensures contents.ReadFailed? ==> r == LoadFailed(ReadError)
    ensures contents.DecodeFailed? ==> r == LoadFailed(DecodeError)
    ensures contents.Decoded? ==> r.Loaded? && r.hosts.Keys == RecordNames(contents.records)
    ensures contents.Decoded? ==> forall n :: n in r.hosts ==> IsLastRecord(contents.records, n, r.hosts[n])
  {
    match contents
    case ReadFailed => LoadFailed(ReadError)
    case DecodeFailed => LoadFailed(DecodeError)
    case Decoded(list) => Loaded(Collect(list))
  }

  /**
   One poll of the dashboard list. A stat failure is an error; an unchanged
   modification time is "nothing to do" and `contents` is not consulted; a
   changed one loads the file and, only if that succeeds, remembers the new
   modification time.
   */
  function Reload(l: ConfigLoader, stat: Stat, contents: Contents): (r: Reloaded)
    ensures stat.StatFailed? ==> r == Reloaded(l, Failed(StatError))
    ensures stat.Stat? && stat.modTime == l.last ==> r == Reloaded(l, Unchanged)
    ensures r.result.Failed? || r.result.Unchanged? ==> r.loader == l
    ensures r.result.Changed? <==> stat.Stat? && stat.modTime != l.last && contents.Decoded?
    ensures r.result.Changed? ==>
      r.loader.last == stat.modTime && Load(contents) == Loaded(r.result.hosts)
    ensures stat.Stat? && stat.modTime != l.last && !contents.Decoded? ==>
      r.result == Failed(Load(contents).error)
  {
    if stat.StatFailed? || stat.modTime == l.last then
      Reloaded(l, if stat.StatFailed? then Failed(StatError) else Unchanged)
    else
      match Load(contents)
      case LoadFailed(e) => Reloaded(l, Failed(e))
      case Loaded(m) => Reloaded(ConfigLoader(stat.modTime), Changed(m))
  }

  /**
   The remembered modification time advances only on a successful load, and
   then to the observed one.
   */
  lemma ReloadAdvancesOnlyOnSuccess(l: ConfigLoader, stat: Stat, contents: Contents)
    ensures var r := Reload(l, stat, contents);
      r.loader != l ==> r.result.Changed? && r.loader == ConfigLoader(stat.modTime)
  {
  }

  /**
   Polling again with the same modification time after a poll that did not
   fail returns "unchanged" and leaves the loader as it is, whatever the file
   would now decode to: the file is not re-read.
   */
  lemma ReloadTwiceIsUnchanged(l: ConfigLoader, stat: Stat, first: Contents, second: Contents)
    requires !Reload(l, stat, first).result.Failed?
    ensures var r1 := Reload(l, stat, first);
      Reload(r1.loader, stat, second) == Reloaded(r1.loader, Unchanged)
  {
  }

  /**
   A failed load does not consume the new modification time: polling again
   with the same time and contents that now decode loads them.
   */
  lemma ReloadRetriesAfterFailure(l: ConfigLoader, t: Time, bad: Contents, list: seq<Record>)
    requires t != l.last
    requires !bad.Decoded?
    ensures Reload(l, Stat(t), bad).result.Failed?
    ensures var r1 := Reload(l, Stat(t), bad);
      Reload(r1.loader, Stat(t), Decoded(list)) == Reloaded(ConfigLoader(t), Changed(Collect(list)))
  {
  }

  /** Later records win: collecting `a + b` is collecting `a`, overridden by collecting `b`. */
  lemma {:induction false} CollectConcat(a: seq<Record>, b: seq<Record>)
    ensures Collect(a + b) == Collect(a) + Collect(b)
    decreases |b|
  {
    if |b| == 0 {
      assert a + b == a;
    } else {
      var b' := b[..|b| - 1];
      var last := b[|b| - 1];
      assert (a + b)[..|a + b| - 1] == a + b';
      assert (a + b)[|a + b| - 1] == last;
      assert Collect(a + b) == Collect(a + b')[last.name := last.dashboard];
      assert Collect(b) == Collect(b')[last.name := last.dashboard];
      CollectConcat(a, b');
      MapOverrideUpdate(Collect(a), Collect(b'), last.name, last.dashboard);
    }
  }

  /** Updating the right operand of `+` is updating the union. */
  lemma MapOverrideUpdate<K, V>(x: map<K, V>, y: map<K, V>, k: K, v: V)
    ensures (x + y)[k := v] == x + y[k := v]
  {
  }

  /** Of two records with the same name, the later one's dashboard is kept. */
  lemma DuplicateNameKeepsLast()
    ensures Collect([Record("a", "h1:1"), Record("a", "h2:2")]) == map["a" := "h2:2"]
  {
  }

}
