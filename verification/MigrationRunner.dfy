/** The migration runner (backend/scripts/run_migrations.py:52-60, 113-211). */
module MigrationRunner {
  import opened Wrappers
  import opened Sequences
  import opened StableSort
  import opened Decimals

  // ---------------------------------------------------------------- the order of the files

  function LeadingDigits(name: string): (d: string)
    ensures IsDigits(d)
  {
    if name != "" && IsDigit(name[0]) then [name[0]] + LeadingDigits(name[1..]) else ""
  }

  /** The leading number, or 1000000 without one. */
  function Prefix(name: string): nat {
    var digits := LeadingDigits(name);
    if digits == "" then 1_000_000 else ValueOf(digits)
  }

  /** Python's string order. */
  predicate StringLe(a: string, b: string) {
    a == "" || (b != "" && (a[0] < b[0] || (a[0] == b[0] && StringLe(a[1..], b[1..]))))
  }

  /** The order of _numeric_key: (leading number, file name). */
  predicate KeyLe(a: string, b: string) {
    Prefix(a) < Prefix(b) || (Prefix(a) == Prefix(b) && StringLe(a, b))
  }

  /** A file's number is the one its name begins with; a file without one goes last, as if numbered 1000000. */
  lemma PrefixIs(n: nat, rest: string)
    requires rest == "" || !IsDigit(rest[0])
    ensures Prefix(Numeral(n) + rest) == n && Prefix("0" + Numeral(n) + rest) == n && Prefix(rest) == 1_000_000
  {
    LeadingIs(Numeral(n), rest);
    LeadingIs("0" + Numeral(n), rest);
    assert ("0" + Numeral(n)) + rest == "0" + Numeral(n) + rest;
    NumeralReadsBack(n);
    ZeroIgnored(Numeral(n));
  }

  lemma {:induction false} LeadingIs(digits: string, rest: string)
    requires IsDigits(digits) && (rest == "" || !IsDigit(rest[0]))
    ensures LeadingDigits(digits + rest) == digits
  {
    if digits != "" {
      assert (digits + rest)[1..] == digits[1..] + rest;
      LeadingIs(digits[1..], rest);
    } else {
      assert digits + rest == rest;
    }
  }

  lemma {:induction false} ZeroIgnored(digits: string)
    requires IsDigits(digits)
    ensures IsDigits("0" + digits) && ValueOf("0" + digits) == ValueOf(digits)
    decreases |digits|
  {
    if digits != "" {
      var n := |digits| - 1;
      assert ("0" + digits)[..|digits|] == "0" + digits[..n];
      ZeroIgnored(digits[..n]);
    }
  }

  lemma {:induction false} StringLeTotal(a: string, b: string)
    ensures StringLe(a, b) || StringLe(b, a)
  {
    if a != "" && b != "" && a[0] == b[0] {
      StringLeTotal(a[1..], b[1..]);
    }
  }

  lemma {:induction false} StringLeTransitive(a: string, b: string, c: string)
    requires StringLe(a, b) && StringLe(b, c)
    ensures StringLe(a, c)
  {
    if a != "" && a[0] == b[0] == c[0] {
      StringLeTransitive(a[1..], b[1..], c[1..]);
    }
  }

  lemma {:induction false} StringLeAntisymmetric(a: string, b: string)
    requires StringLe(a, b) && StringLe(b, a)
    ensures a == b
  {
    if a != "" {
      StringLeAntisymmetric(a[1..], b[1..]);
      assert a == [a[0]] + a[1..] && b == [b[0]] + b[1..];
    }
  }

  /** No two names are level in the order. */
  lemma KeyLeAntisymmetric(a: string, b: string)
    requires KeyLe(a, b) && KeyLe(b, a)
    ensures a == b
  {
    StringLeAntisymmetric(a, b);
  }

  lemma KeyLeTotalPreorder()
    ensures TotalPreorder(KeyLe)
  {
    forall a, b ensures KeyLe(a, b) || KeyLe(b, a) {
      StringLeTotal(a, b);
    }
    forall a, b, c | KeyLe(a, b) && KeyLe(b, c) ensures KeyLe(a, c) {
      if StringLe(a, b) && StringLe(b, c) {
        StringLeTransitive(a, b, c);
      }
    }
  }

  ghost predicate Distinct(names: seq<string>) {
    forall i, j :: 0 <= i < j < |names| ==> names[i] != names[j]
  }

  lemma DistinctCountsOnce(names: seq<string>, x: string)
    requires Distinct(names) && x in names
    ensures multiset(names)[x] == 1
  {
    var i :| 0 <= i < |names| && names[i] == x;
    var before, after := names[..i], names[i + 1..];
    assert names == before + [x] + after;
    assert x !in before && x !in after;
    assert x !in multiset(before) && x !in multiset(after);
  }

  lemma RepeatCountsTwice(names: seq<string>, i: nat, j: nat)
    requires i < j < |names| && names[i] == names[j]
    ensures multiset(names)[names[i]] >= 2
  {
    var before, after := names[..j], names[j..];
    assert names == before + after;
    assert before[i] in multiset(before) && after[0] in multiset(after);
  }

  /** The directory's files in the order the runner takes them. */
  function Files(names: seq<string>): seq<string> {
    Sort(names, KeyLe)
  }

  lemma FilesSound(names: seq<string>)
    requires Distinct(names)
    ensures Distinct(Files(names)) && Sorted(Files(names), KeyLe) && forall x :: x in Files(names) <==> x in names
  {
    KeyLeTotalPreorder();
    SortSorts(names, KeyLe);
    SortPermutes(names, KeyLe);
    forall x ensures x in Files(names) <==> x in names {
      SortMembers(names, KeyLe, x);
    }
    forall i, j | 0 <= i < j < |names| ensures Files(names)[i] != Files(names)[j] {
      if Files(names)[i] == Files(names)[j] {
        RepeatCountsTwice(Files(names), i, j);
        DistinctCountsOnce(names, Files(names)[i]);
      }
    }
  }

  /** The files are taken in the same order however the directory lists them. */
  lemma ListingOrderIrrelevant(names: seq<string>, other: seq<string>)
    requires multiset(names) == multiset(other)
    ensures Files(names) == Files(other)
  {
    KeyLeTotalPreorder();
    SortSorts(names, KeyLe);
    SortSorts(other, KeyLe);
    SortPermutes(names, KeyLe);
    SortPermutes(other, KeyLe);
    SortedUnique(Files(names), Files(other));
  }

  lemma {:induction false} SortedUnique(a: seq<string>, b: seq<string>)
    requires Sorted(a, KeyLe) && Sorted(b, KeyLe) && multiset(a) == multiset(b)
    ensures a == b
  {
    if a == [] {
      assert |multiset(b)| == 0;
    } else {
      SameLeast(a, b);
      assert a == [a[0]] + a[1..] && b == [b[0]] + b[1..];
      assert multiset(a[1..]) == multiset(a) - multiset{a[0]} == multiset(b[1..]);
      SortedUnique(a[1..], b[1..]);
    }
  }

  lemma SameLeast(a: seq<string>, b: seq<string>)
    requires Sorted(a, KeyLe) && Sorted(b, KeyLe) && multiset(a) == multiset(b) && a != []
    ensures b != [] && a[0] == b[0]
  {
    assert a[0] in multiset(b) && |multiset(b)| == |a|;
    assert b[0] in multiset(a);
    Least(a, b[0]);
    Least(b, a[0]);
    KeyLeAntisymmetric(a[0], b[0]);
  }

  lemma Least(s: seq<string>, x: string)
    requires Sorted(s, KeyLe) && x in s
    ensures KeyLe(s[0], x)
  {
    var i :| 0 <= i < |s| && s[i] == x;
    if i == 0 {
      StringLeTotal(x, x);
    }
  }

  // ---------------------------------------------------------------- one run

  /** recorded: the rows of schema_migrations; executed: the files whose SQL was committed, in order. */
  datatype Database = Database(recorded: set<string>, executed: seq<string>)

  /** failing: the files whose transaction raises in this run. */
  datatype Config = Config(baseline: Option<int>, dryRun: bool, failing: set<string>)

  /** pending: what a dry run lists as to be applied. */
  datatype Report = Report(db: Database, exitCode: int, applied: nat, skipped: nat, baselined: nat,
                           pending: seq<string>)

  predicate Baselined(name: string, config: Config) {
    config.baseline.Some? && Prefix(name) <= config.baseline.value
  }

  /** The loop from the i-th file on; already is what was recorded when the run began. */
  function RunFrom(files: seq<string>, i: nat, already: set<string>, config: Config, r: Report): Report
    requires i <= |files|
    decreases |files| - i
  {
    if i == |files| then r
    else
      var name := files[i];
      if name in already then RunFrom(files, i + 1, already, config, r.(skipped := r.skipped + 1))
      else if Baselined(name, config) then
        var db := if config.dryRun then r.db else r.db.(recorded := r.db.recorded + {name});
        RunFrom(files, i + 1, already, config, r.(db := db, baselined := r.baselined + 1))
      else if config.dryRun then
        RunFrom(files, i + 1, already, config, r.(applied := r.applied + 1, pending := r.pending + [name]))
      else if name in config.failing then r.(exitCode := 1)
      else
        var db := Database(r.db.recorded + {name}, r.db.executed + [name]);
        RunFrom(files, i + 1, already, config, r.(db := db, applied := r.applied + 1))
  }

  function RunOnce(files: seq<string>, config: Config, db: Database): Report {
    var start := Report(db, 0, 0, 0, 0, []);
    if files == [] then start.(exitCode := 1) else RunFrom(files, 0, db.recorded, config, start)
  }

  class Runner {
    var recorded: set<string>
    var executed: seq<string>

    function View(): Database
      reads this
    {
      Database(recorded, executed)
    }

    constructor ()
      ensures View() == Database({}, [])
    {
      recorded, executed := {}, [];
    }

    /** main */
    method Run(names: seq<string>, config: Config)
      returns (exitCode: int, applied: nat, skipped: nat, baselined: nat, pending: seq<string>)
      modifies this
      ensures Report(View(), exitCode, applied, skipped, baselined, pending)
           == RunOnce(Files(names), config, old(View()))
    {
      exitCode, applied, skipped, baselined, pending := 0, 0, 0, 0, [];
      var files := Files(names);
      if files == [] {
        exitCode := 1;
        return;
      }
      var already := recorded;
      var i := 0;
      while i < |files|
        invariant i <= |files| && exitCode == 0
        invariant RunFrom(files, i, already, config, Report(View(), exitCode, applied, skipped, baselined, pending))
               == RunOnce(files, config, old(View()))
      {
        var name := files[i];
        if name in already {
          skipped := skipped + 1;
        } else if Baselined(name, config) {
          if !config.dryRun {
            recorded := recorded + {name};
          }
          baselined := baselined + 1;
        } else if config.dryRun {
          applied := applied + 1;
          pending := pending + [name];
        } else if name in config.failing {
          exitCode := 1;
          return;
        } else {
          executed := executed + [name];
          recorded := recorded + {name};
          applied := applied + 1;
        }
        i := i + 1;
      }
    }
  }

  // ---------------------------------------------------------------- what one run does

  /** The file is neither recorded nor within the baseline. */
  predicate ToRun(name: string, already: set<string>, config: Config) {
    name !in already && (config.baseline.Some? ==> Prefix(name) > config.baseline.value)
  }

  predicate Breaks(name: string, already: set<string>, config: Config) {
    !config.dryRun && ToRun(name, already, config) && name in config.failing
  }

  function ToRunIn(already: set<string>, config: Config): string -> bool {
    (name: string) => ToRun(name, already, config)
  }

  function RecordedIn(already: set<string>): string -> bool {
    (name: string) => name in already
  }

  /** The files up to the one that breaks the run, if any, were looked at: what that makes of a report. */
  ghost predicate Did(seen: seq<string>, broke: bool, already: set<string>, config: Config, r: Report, out: Report) {
    var run := Filter(seen, ToRunIn(already, config));
    && out.exitCode == (if broke then 1 else r.exitCode)
    && out.applied == r.applied + |run|
    && out.skipped == r.skipped + |Filter(seen, RecordedIn(already))|
    && out.applied + out.skipped + out.baselined == r.applied + r.skipped + r.baselined + |seen|
    && (if config.dryRun then out.db == r.db && out.pending == r.pending + run
        else
          && out.pending == r.pending && out.db.executed == r.db.executed + run
          && forall x :: x in out.db.recorded <==> x in r.db.recorded || (x in seen && x !in already))
  }

  lemma {:induction false} RunFromIs(files: seq<string>, i: nat, stop: nat, already: set<string>, config: Config,
                                     r: Report)
    requires i <= stop <= |files| && (stop < |files| ==> Breaks(files[stop], already, config))
    requires forall m :: i <= m < stop ==> !Breaks(files[m], already, config)
    ensures Did(files[i..stop], stop < |files|, already, config, r, RunFrom(files, i, already, config, r))
    decreases stop - i
  {
    if i < stop {
      var name := files[i];
      assert files[i..stop] == [name] + files[i + 1..stop];
      var next :=
        if name in already then r.(skipped := r.skipped + 1)
        else if !ToRun(name, already, config) then
          r.(db := if config.dryRun then r.db
          else r.db.(recorded := r.db.recorded + {name}), baselined := r.baselined + 1)
        else if config.dryRun then r.(applied := r.applied + 1, pending := r.pending + [name])
        else r.(db := Database(r.db.recorded + {name}, r.db.executed + [name]), applied := r.applied + 1);
      assert RunFrom(files, i, already, config, r) == RunFrom(files, i + 1, already, config, next);
      RunFromIs(files, i + 1, stop, already, config, next);
    }
  }

  lemma {:induction false} FirstBreak(files: seq<string>, i: nat, already: set<string>,
                                      config: Config) returns (stop: nat)
    requires i <= |files|
    ensures i <= stop <= |files| && (stop < |files| ==> Breaks(files[stop], already, config))
    ensures forall m :: i <= m < stop ==> !Breaks(files[m], already, config)
    decreases |files| - i
  {
    stop := i;
    if i < |files| && !Breaks(files[i], already, config) {
      stop := FirstBreak(files, i + 1, already, config);
    }
  }

  /**
    * A run looks at the files up to the first that breaks it. Of those it executes, or a dry run lists, in order, the
    * ones neither recorded nor within the baseline; all of them end up recorded unless it is a dry run; and it fails
    * exactly if a file broke it or there is none.
    */
  lemma OneRunIs(files: seq<string>, config: Config, db: Database) returns (stop: nat)
    ensures stop <= |files| && (stop < |files| ==> Breaks(files[stop], db.recorded, config))
    ensures forall m :: 0 <= m < stop ==> !Breaks(files[m], db.recorded, config)
    ensures Did(files[..stop], stop
                               < |files|, db.recorded, config, Report(db, if files == [] then 1 else 0, 0, 0, 0, []),
                RunOnce(files, config, db))
  {
    stop := FirstBreak(files, 0, db.recorded, config);
    if files != [] {
      RunFromIs(files, 0, stop, db.recorded, config, Report(db, 0, 0, 0, 0, []));
      assert files[0..stop] == files[..stop];
    }
  }

  // ---------------------------------------------------------------- series of runs

  function ToSet(s: seq<string>): set<string> {
    set x | x in s
  }

  /** The recorded files are the first k in numeric order, and every executed file was executed once. */
  ghost predicate PrefixDone(files: seq<string>, k: nat, db: Database) {
    && k <= |files| && db.recorded == ToSet(files[..k])
    && Distinct(db.executed) && forall x :: x in db.executed ==> x in db.recorded
  }

  /** Files already recorded are all skipped. */
  lemma {:induction false} SkipsDone(files: seq<string>, i: nat, k: nat, already: set<string>, config: Config,
                                     r: Report)
    requires i <= k <= |files| && forall j :: i <= j < k ==> files[j] in already
    ensures RunFrom(files, i, already, config, r)
         == RunFrom(files, k, already, config, r.(skipped := r.skipped + (k - i)))
    decreases k - i
  {
    if i < k {
      SkipsDone(files, i + 1, k, already, config, r.(skipped := r.skipped + 1));
    }
  }

  /** From file i on, what was done grows by the next files in order, up to the end or the first failure. */
  lemma {:induction false} RunExtends(files: seq<string>, i: nat, already: set<string>, config: Config,
                                      r: Report) returns (j: nat)
    requires Distinct(files) && !config.dryRun && PrefixDone(files, i, r.db)
    requires forall m :: i <= m < |files| ==> files[m] !in already
    ensures i <= j && PrefixDone(files, j, RunFrom(files, i, already, config, r).db)
    ensures config.baseline == None ==> RunFrom(files, i, already, config, r).db.executed == r.db.executed + files[i..j]
    ensures config.failing == {} ==> j == |files|
    decreases |files| - i
  {
    j := i;
    if i < |files| {
      var name := files[i];
      assert files[..i + 1] == files[..i] + [name];
      assert name !in files[..i];
      if Baselined(name, config) {
        var db := r.db.(recorded := r.db.recorded + {name});
        j := RunExtends(files, i + 1, already, config, r.(db := db, baselined := r.baselined + 1));
      } else if name !in config.failing {
        var db := Database(r.db.recorded + {name}, r.db.executed + [name]);
        j := RunExtends(files, i + 1, already, config, r.(db := db, applied := r.applied + 1));
        assert files[i..j] == [name] + files[i + 1..j];
      }
    }
  }

  lemma {:induction false} DryRunFrom(files: seq<string>, i: nat, already: set<string>, config: Config, r: Report)
    requires i <= |files| && config.dryRun
    ensures var dry := RunFrom(files, i, already, config, r);
            && dry.db == r.db && r.pending <= dry.pending && dry.exitCode == r.exitCode
    decreases |files| - i
  {
    if i < |files| {
      var name := files[i];
      if name in already {
        DryRunFrom(files, i + 1, already, config, r.(skipped := r.skipped + 1));
      } else if Baselined(name, config) {
        DryRunFrom(files, i + 1, already, config, r.(baselined := r.baselined + 1));
      } else {
        DryRunFrom(files, i + 1, already, config, r.(applied := r.applied + 1, pending := r.pending + [name]));
      }
    }
  }

  /** A dry run and a failure-free run in step: what one lists the other executes. */
  lemma {:induction false} DryMirrorsReal(files: seq<string>, i: nat, already: set<string>, baseline: Option<int>,
                                          dry: Report, run: Report, executed: seq<string>)
    requires i <= |files| && run.db.executed == executed + dry.pending
    requires dry.applied == run.applied && dry.skipped == run.skipped && dry.baselined == run.baselined
    requires dry.exitCode == run.exitCode
    ensures var d := RunFrom(files, i, already, Config(baseline, true, {}), dry);
            var r := RunFrom(files, i, already, Config(baseline, false, {}), run);
            && r.db.executed == executed + d.pending
            && d.applied == r.applied && d.skipped == r.skipped && d.baselined == r.baselined
            && d.exitCode == r.exitCode
    decreases |files| - i
  {
    if i < |files| {
      var name := files[i];
      if name in already {
        DryMirrorsReal(files, i + 1, already, baseline, dry.(skipped := dry.skipped + 1),
                       run.(skipped := run.skipped + 1), executed);
      } else if Baselined(name, Config(baseline, true, {})) {
        DryMirrorsReal(files, i + 1, already, baseline, dry.(baselined := dry.baselined + 1),
                       run.(db := run.db.(recorded := run.db.recorded + {name}), baselined := run.baselined + 1),
                       executed);
      } else {
        assert (executed + dry.pending) + [name] == executed + (dry.pending + [name]);
        DryMirrorsReal(files, i + 1, already, baseline,
                       dry.(applied := dry.applied + 1, pending := dry.pending + [name]),
                       run.(db := Database(run.db.recorded + {name}, run.db.executed + [name]),
                       applied := run.applied + 1), executed);
      }
    }
  }

  /** A dry run changes nothing, and lists exactly what a failure-free run with the same options would then execute. */
  lemma DryRunPredicts(files: seq<string>, baseline: Option<int>, failing: set<string>, db: Database)
    ensures var dry := RunOnce(files, Config(baseline, true, failing), db);
            var run := RunOnce(files, Config(baseline, false, {}), db);
            && dry.db == db
            && run.db.executed == db.executed + dry.pending
            && (dry.applied, dry.skipped, dry.baselined, dry.exitCode)
               == (run.applied, run.skipped, run.baselined, run.exitCode)
  {
    if files != [] {
      var start := Report(db, 0, 0, 0, 0, []);
      DryRunFrom(files, 0, db.recorded, Config(baseline, true, failing), start);
      DryIgnoresFailures(files, 0, db.recorded, baseline, failing, start);
      DryMirrorsReal(files, 0, db.recorded, baseline, start, start, db.executed);
    }
  }

  lemma {:induction false} DryIgnoresFailures(files: seq<string>, i: nat, already: set<string>, baseline: Option<int>,
                                              failing: set<string>, r: Report)
    requires i <= |files|
    ensures RunFrom(files, i, already, Config(baseline, true, failing), r)
         == RunFrom(files, i, already, Config(baseline, true, {}), r)
    decreases |files| - i
  {
    if i < |files| {
      var name := files[i];
      if name in already {
        DryIgnoresFailures(files, i + 1, already, baseline, failing, r.(skipped := r.skipped + 1));
      } else if Baselined(name, Config(baseline, true, {})) {
        DryIgnoresFailures(files, i + 1, already, baseline, failing, r.(baselined := r.baselined + 1));
      } else {
        DryIgnoresFailures(files, i + 1, already, baseline, failing,
                           r.(applied := r.applied + 1, pending := r.pending + [name]));
      }
    }
  }

  function Series(files: seq<string>, configs: seq<Config>): Database {
    if configs == [] then Database({}, [])
    else RunOnce(files, configs[|configs| - 1], Series(files, configs[..|configs| - 1])).db
  }

  ghost predicate NoBaseline(configs: seq<Config>) {
    forall i :: 0 <= i < |configs| ==> configs[i].baseline == None
  }

  lemma RunOnceExtends(files: seq<string>, k: nat, config: Config, db: Database) returns (j: nat)
    requires Distinct(files) && PrefixDone(files, k, db)
    ensures k <= j && PrefixDone(files, j, RunOnce(files, config, db).db)
    ensures config.baseline == None && db.executed == files[..k] ==>
              RunOnce(files, config, db).db.executed == files[..j]
  {
    j := k;
    if files != [] {
      var start := Report(db, 0, 0, 0, 0, []);
      if config.dryRun {
        DryRunFrom(files, 0, db.recorded, config, start);
      } else {
        forall m | k <= m < |files| ensures files[m] !in db.recorded {
          assert forall n :: 0 <= n < k ==> files[n] != files[m];
        }
        assert forall m :: 0 <= m < k ==> files[m] == files[..k][m];
        SkipsDone(files, 0, k, db.recorded, config, start);
        j := RunExtends(files, k, db.recorded, config, start.(skipped := k));
        assert files[..j] == files[..k] + files[k..j];
      }
    }
  }

  /**
    * Over any series of runs, failing wherever they fail, the recorded files are a prefix of the numeric order and none
    * is executed twice; with no baseline the executed files are that prefix, in that order.
    */
  lemma {:induction false} SeriesIsPrefix(names: seq<string>, configs: seq<Config>) returns (k: nat)
    requires Distinct(names)
    ensures PrefixDone(Files(names), k, Series(Files(names), configs))
    ensures NoBaseline(configs) ==> Series(Files(names), configs).executed == Files(names)[..k]
  {
    FilesSound(names);
    var files := Files(names);
    if configs == [] {
      k := 0;
      assert files[..0] == [];
    } else {
      var before := configs[..|configs| - 1];
      k := SeriesIsPrefix(names, before);
      k := RunOnceExtends(files, k, configs[|configs| - 1], Series(files, before));
    }
  }

  /** So a recorded file is never ahead of one with a smaller number. */
  lemma SmallerNumbersFirst(names: seq<string>, configs: seq<Config>, a: string, b: string)
    requires Distinct(names) && a in names && b in names && Prefix(a) < Prefix(b)
    requires b in Series(Files(names), configs).recorded
    ensures a in Series(Files(names), configs).recorded
  {
    FilesSound(names);
    var files := Files(names);
    var k := SeriesIsPrefix(names, configs);
    var i, j :| 0 <= i < |files| && files[i] == a && 0 <= j < k && files[j] == b;
    assert j < i ==> KeyLe(b, a);
    assert files[..k][i] == a;
  }
}
