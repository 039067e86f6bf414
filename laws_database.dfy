/**
 * The curated law library (lib/laws-database.ts) and its queries. The queries
 * are written over the library `db` they read; the library's entries
 * themselves are data and are not reproduced here.
 */
module LawsDatabase {
  import opened Wrappers
  import opened Seqs

  datatype Category = Traffic | Ipc | Consumer | Cybercrime | Civil | Property

  const AllCategories: seq<Category> := [Traffic, Ipc, Consumer, Cybercrime, Civil, Property]

  function CategoryName(c: Category): string {
    match c
    case Traffic => "traffic"
    case Ipc => "ipc"
    case Consumer => "consumer"
    case Cybercrime => "cybercrime"
    case Civil => "civil"
    case Property => "property"
  }

  datatype StateVariations = StateVariations(varies: bool, details: Option<string>)

  datatype LawEntry = LawEntry(
    id: string,
    name: string,
    shortTitle: string,
    category: Category,
    plainExplanation: string,
    penalties: seq<string>,
    stateVariations: StateVariations,
    icon: string,
    tags: seq<string>,
    source: string,
    relatedSections: Option<seq<string>>,
    importantNotes: Option<seq<string>>)

  /** No two entries share an id. */
  predicate DistinctIds(db: seq<LawEntry>) {
    forall i, j :: 0 <= i < j < |db| ==> db[i].id != db[j].id
  }

  /**
   * `getLawOfTheDay`: the entry at `dayOfYear % length`. The day of the year is
   * read from the clock by the caller. An empty library has no entry.
   */
  function LawOfTheDay(db: seq<LawEntry>, dayOfYear: nat): (r: Option<LawEntry>)
    ensures r.Some? <==> |db| > 0
    ensures r.Some? ==> r.value in db && r.value == db[dayOfYear % |db|]
  {
    if |db| == 0 then None else Some(db[dayOfYear % |db|])
  }

  /** The law of the day repeats with a period of the library's length. */
  lemma LawOfTheDayPeriodic(db: seq<LawEntry>, dayOfYear: nat)
    ensures LawOfTheDay(db, dayOfYear + |db|) == LawOfTheDay(db, dayOfYear)
  {
    if |db| > 0 {
      var n, q, r := |db|, dayOfYear / |db|, dayOfYear % |db|;
      assert dayOfYear + n == (q + 1) * n + r;
      ModUnique(dayOfYear + n, n, q + 1, r);
    }
  }

  /** Euclidean division has one quotient and remainder. */
  lemma ModUnique(a: nat, n: nat, q: nat, r: nat)
    requires n > 0 && r < n && a == q * n + r
    ensures a % n == r
  {
    var q', r' := a / n, a % n;
    assert a == q' * n + r';
    if q' < q {
      MulMonotone(q' + 1, q, n);
    } else if q' > q {
      MulMonotone(q + 1, q', n);
    }
  }

  lemma MulMonotone(x: nat, y: nat, n: nat)
    requires x <= y
    ensures x * n <= y * n && (x + 1) * n == x * n + n
  {
    var d := y - x;
    assert y * n == x * n + d * n;
  }

  /** With two or more distinct entries, consecutive days never show the same law. */
  lemma LawOfTheDayChangesDaily(db: seq<LawEntry>, dayOfYear: nat)
    requires |db| >= 2 && DistinctIds(db)
    ensures LawOfTheDay(db, dayOfYear + 1).value.id != LawOfTheDay(db, dayOfYear).value.id
  {
    var n, q, i := |db|, dayOfYear / |db|, dayOfYear % |db|;
    assert dayOfYear == q * n + i;
    if i + 1 < n {
      ModUnique(dayOfYear + 1, n, q, i + 1);
    } else {
      assert dayOfYear + 1 == (q + 1) * n;
      ModUnique(dayOfYear + 1, n, q + 1, 0);
    }
  }

  /** `excludeId` as a truthy optional string. */
  predicate Excludes(excludeId: Option<string>) {
    excludeId.Some? && excludeId.value != ""
  }

  function NotId(id: string): LawEntry -> bool {
    (law: LawEntry) => law.id != id
  }

  /** The entries `getRandomLaw` draws from. */
  function Candidates(db: seq<LawEntry>, excludeId: Option<string>): (c: seq<LawEntry>)
    ensures forall law :: law in c <==> law in db && !(Excludes(excludeId) && law.id == excludeId.value)
  {
    if Excludes(excludeId) then Filter(db, NotId(excludeId.value)) else db
  }

  /**
   * `getRandomLaw`: the candidate at `floor(random * length)`, where `random`
   * is the value `Math.random()` returned. No candidate gives no entry.
   */
  function RandomLaw(db: seq<LawEntry>, excludeId: Option<string>, random: real): (r: Option<LawEntry>)
    requires 0.0 <= random < 1.0
    ensures r.Some? <==> |Candidates(db, excludeId)| > 0
    ensures r.Some? ==> r.value in db
    ensures r.Some? && Excludes(excludeId) ==> r.value.id != excludeId.value
  {
    var candidates := Candidates(db, excludeId);
    var n := |candidates|;
    if n == 0 then None
    else
      var k := (random * n as real).Floor;
      FloorIndex(random, n);
      assert candidates[k] in candidates;
      Some(candidates[k])
  }

  /** `Math.floor(random * n)` is an index of a list of length `n`. */
  lemma FloorIndex(random: real, n: nat)
    requires 0.0 <= random < 1.0 && n > 0
    ensures 0 <= (random * n as real).Floor < n
  {
    var x := random * n as real;
    assert 0.0 <= x;
    assert n as real - x == (1.0 - random) * n as real;
    assert 0.0 < (1.0 - random) * n as real;
  }

  /** When the excluded entry is in a library of two or more distinct entries, a different one is always found. */
  lemma RandomLawAvoidsCurrent(db: seq<LawEntry>, current: nat, random: real)
    requires 0.0 <= random < 1.0
    requires |db| >= 2 && DistinctIds(db) && current < |db| && db[current].id != ""
    ensures var r := RandomLaw(db, Some(db[current].id), random);
            r.Some? && r.value.id != db[current].id
  {
    var other := if current == 0 then 1 else 0;
    assert db[other] in Candidates(db, Some(db[current].id));
  }

  function InCategory(c: Category): LawEntry -> bool {
    (law: LawEntry) => law.category == c
  }

  /** `getLawsByCategory`: the entries of one category, in library order. */
  function LawsByCategory(db: seq<LawEntry>, c: Category): (r: seq<LawEntry>)
    ensures forall law :: law in r <==> law in db && law.category == c
    ensures IsSubseq(r, db)
  {
    Filter(db, InCategory(c))
  }

  /** `getCategoryCounts`: how many entries each category has; categories without entries have no key. */
  method CategoryCounts(db: seq<LawEntry>) returns (counts: map<Category, nat>)
    ensures forall c :: c in counts <==> |LawsByCategory(db, c)| > 0
    ensures forall c :: c in counts ==> counts[c] == |LawsByCategory(db, c)|
  {
    counts := map[];
    var i := 0;
    while i < |db|
      invariant 0 <= i <= |db|
      invariant Counted(counts, db[..i])
    {
      CountedStep(counts, db, i);
      var cat := db[i].category;
      counts := counts[cat := (if cat in counts then counts[cat] else 0) + 1];
      i := i + 1;
    }
    assert db[..i] == db;
  }

  /** `counts` holds the size of each non-empty category of `seen`, and no other key. */
  predicate Counted(counts: map<Category, nat>, seen: seq<LawEntry>) {
    && (forall c :: c in counts <==> |LawsByCategory(seen, c)| > 0)
    && (forall c :: c in counts ==> counts[c] == |LawsByCategory(seen, c)|)
  }

  /** Counting one more entry keeps the counts right. */
  lemma CountedStep(counts: map<Category, nat>, db: seq<LawEntry>, i: nat)
    requires i < |db| && Counted(counts, db[..i])
    ensures var cat := db[i].category;
            Counted(counts[cat := (if cat in counts then counts[cat] else 0) + 1], db[..i + 1])
  {
    forall c ensures |LawsByCategory(db[..i + 1], c)| == |LawsByCategory(db[..i], c)| + (if db[i].category == c then 1 else 0) {
      CountStep(db, i, c);
    }
  }

  /** Taking one more entry adds one to its own category's count only. */
  lemma CountStep(db: seq<LawEntry>, i: nat, c: Category)
    requires i < |db|
    ensures |LawsByCategory(db[..i + 1], c)| == |LawsByCategory(db[..i], c)| + (if db[i].category == c then 1 else 0)
  {
    assert db[..i + 1] == db[..i] + [db[i]];
    FilterConcat(db[..i], [db[i]], InCategory(c));
  }

  /** How many entries of `db` are in category `c`. */
  function CountIn(db: seq<LawEntry>, c: Category): nat {
    |LawsByCategory(db, c)|
  }

  lemma CountInConcat(a: seq<LawEntry>, b: seq<LawEntry>, c: Category)
    ensures CountIn(a + b, c) == CountIn(a, c) + CountIn(b, c)
  {
    FilterConcat(a, b, InCategory(c));
  }

  /** Every entry is counted in exactly one category: the counts add up to the library's size. */
  lemma {:induction false} CategoryCountsTotal(db: seq<LawEntry>)
    ensures CountIn(db, Traffic) + CountIn(db, Ipc) + CountIn(db, Consumer)
            + CountIn(db, Cybercrime) + CountIn(db, Civil) + CountIn(db, Property) == |db|
  {
    if db != [] {
      var head, rest := [db[0]], db[1..];
      assert db == head + rest;
      CategoryCountsTotal(rest);
      CountInConcat(head, rest, Traffic);
      CountInConcat(head, rest, Ipc);
      CountInConcat(head, rest, Consumer);
      CountInConcat(head, rest, Cybercrime);
      CountInConcat(head, rest, Civil);
      CountInConcat(head, rest, Property);
    }
  }
}
