/**
 * The URL-shortener seeding script: the `url_shortener` table, the insertion
 * that retries the random code until the table does not hold it yet, and the
 * loop that seeds the table with dummy URLs.
 */
module Shortener {
  import opened Random
  import opened Results
  import opened Shortcode

  /** A row of `url_shortener` (its `created_at` stamp is left out). */
  datatype Row = Row(id: int, originalUrl: string, shortCode: string)

  /** Why a seeding step stops. */
  datatype SeedError =
    | DrawsExhausted   // the supplied tape ran out before the step was done

  /** No two rows share a short code. */
  ghost predicate CodesDistinct(rows: seq<Row>)
  {
    forall i, j :: 0 <= i < j < |rows| ==> rows[i].shortCode != rows[j].shortCode
  }

  /** The rows whose short code is `code`, in table order. */
  function Matching(rows: seq<Row>, code: string): (m: seq<Row>)
    ensures forall r :: r in m <==> r in rows && r.shortCode == code
    ensures |m| <= |rows|
  {
    if rows == [] then []
    else if rows[|rows| - 1].shortCode == code then Matching(rows[..|rows| - 1], code) + [rows[|rows| - 1]]
    else Matching(rows[..|rows| - 1], code)
  }

  /** A lookup by a code no row carries finds nothing. */
  lemma MatchingNone(rows: seq<Row>, code: string)
    requires forall r <- rows :: r.shortCode != code
    ensures Matching(rows, code) == []
  {
  }

  /** With distinct codes, a lookup by code finds at most one row. */
  lemma {:induction false} MatchingAtMostOne(rows: seq<Row>, code: string)
    requires CodesDistinct(rows)
    ensures |Matching(rows, code)| <= 1
  {
    if rows != [] {
      var init := rows[..|rows| - 1];
      MatchingAtMostOne(init, code);
      if rows[|rows| - 1].shortCode == code {
        forall k | 0 <= k < |init|
          ensures init[k].shortCode != code
        {
          assert init[k] == rows[k];
        }
        MatchingNone(init, code);
      }
    }
  }

  /** The candidate codes a tape yields, one per `DefaultLength` draws. */
  function Candidate(tape: seq<Draw>, k: nat): string
    requires (k + 1) * DefaultLength <= |tape|
  {
    Spell(tape[k * DefaultLength..(k + 1) * DefaultLength])
  }

  /**
   * What the retry loop of `createShortUrl` settles on: the first candidate
   * not in `taken`, with the tape left after it, or None if the tape runs out
   * of whole candidates first.
   */
  function FirstFresh(taken: set<string>, tape: seq<Draw>): (r: Option<(string, seq<Draw>)>)
    ensures r.Some? ==> r.value.0 !in taken && |r.value.0| == DefaultLength
    decreases |tape|
  {
    if |tape| < DefaultLength then None
    else
      var candidate := Spell(tape[..DefaultLength]);
      if candidate !in taken then Some((candidate, tape[DefaultLength..]))
      else FirstFresh(taken, tape[DefaultLength..])
  }

  lemma CandidateShift(tape: seq<Draw>, k: nat)
    requires (k + 2) * DefaultLength <= |tape|
    ensures Candidate(tape[DefaultLength..], k) == Candidate(tape, k + 1)
  {
    assert tape[DefaultLength..][k * DefaultLength..(k + 1) * DefaultLength]
        == tape[(k + 1) * DefaultLength..(k + 2) * DefaultLength];
  }

  /**
   * The loop settles on the FIRST fresh candidate: every candidate before it
   * was taken, it is not, and the tape resumes right after it.
   */
  lemma {:induction false} FirstFreshIsFirst(taken: set<string>, tape: seq<Draw>)
    requires FirstFresh(taken, tape).Some?
    ensures var (code, rest) := FirstFresh(taken, tape).value;
            var k := (|tape| - |rest|) / DefaultLength - 1;
            && |rest| <= |tape| - DefaultLength
            && (|tape| - |rest|) % DefaultLength == 0
            && rest == tape[|tape| - |rest|..]
            && code == Candidate(tape, k)
            && code !in taken
            && (forall j :: 0 <= j < k ==> Candidate(tape, j) in taken)
  {
    var candidate := Spell(tape[..DefaultLength]);
    assert Candidate(tape, 0) == candidate;
    if candidate in taken {
      var tail := tape[DefaultLength..];
      FirstFreshIsFirst(taken, tail);
      var (code, rest) := FirstFresh(taken, tape).value;
      var k := (|tape| - |rest|) / DefaultLength - 1;
      assert (|tail| - |rest|) / DefaultLength - 1 == k - 1;
      CandidateShift(tape, k - 1);
      forall j | 0 <= j < k
        ensures Candidate(tape, j) in taken
      {
        if j > 0 { CandidateShift(tape, j - 1); }
      }
    }
  }

  /** The loop gives up only when every whole candidate on the tape was taken. */
  lemma {:induction false} FirstFreshNone(taken: set<string>, tape: seq<Draw>)
    requires FirstFresh(taken, tape).None?
    ensures forall j :: 0 <= j < |tape| / DefaultLength ==> Candidate(tape, j) in taken
  {
    if |tape| >= DefaultLength {
      var tail := tape[DefaultLength..];
      assert Candidate(tape, 0) == Spell(tape[..DefaultLength]);
      FirstFreshNone(taken, tail);
      forall j | 0 < j < |tape| / DefaultLength
        ensures Candidate(tape, j) in taken
      {
        CandidateShift(tape, j - 1);
      }
    }
  }

  /**
   * With "AAAAAA" already stored and a tape whose first six draws spell it,
   * the loop draws again: here the next six draws spell "BBBBBB", and that is
   * the code it settles on. Such draws exist (`RedrawOnCollisionReachable`).
   */
  lemma RedrawOnCollision(a: Draw, b: Draw)
    requires CharOf(a) == 'A' && CharOf(b) == 'B'
    ensures FirstFresh({"AAAAAA"}, [a, a, a, a, a, a, b, b, b, b, b, b]) == Some(("BBBBBB", []))
  {
    var tape := [a, a, a, a, a, a, b, b, b, b, b, b];
    var tail := tape[DefaultLength..];
    assert tape[..DefaultLength] == [a, a, a, a, a, a];
    assert tail == tail[..DefaultLength] == [b, b, b, b, b, b];
    SpellSix(a, 'A');
    SpellSix(b, 'B');
    assert "BBBBBB"[0] != "AAAAAA"[0];
    assert tail[DefaultLength..] == [];
    assert FirstFresh({"AAAAAA"}, tail) == Some(("BBBBBB", []));
  }

  /** The draws `RedrawOnCollision` asks for exist: the draws that pick 'A' and 'B'. */
  lemma RedrawOnCollisionReachable()
    ensures exists a: Draw, b: Draw :: CharOf(a) == 'A' && CharOf(b) == 'B'
  {
    var draws := Unspell("AB");
    SpellUnspell("AB");
    assert CharOf(draws[0]) == Spell(draws)[0] == 'A';
    assert CharOf(draws[1]) == Spell(draws)[1] == 'B';
  }

  lemma SpellSix(u: Draw, c: char)
    requires CharOf(u) == c
    ensures Spell([u, u, u, u, u, u]) == [c, c, c, c, c, c]
  {
  }

  /** A first candidate that is already stored is never the code returned. */
  lemma CollisionNeverReturned(taken: set<string>, tape: seq<Draw>)
    requires |tape| >= DefaultLength && Spell(tape[..DefaultLength]) in taken
    ensures FirstFresh(taken, tape) == FirstFresh(taken, tape[DefaultLength..])
    ensures FirstFresh(taken, tape).Some? ==> FirstFresh(taken, tape).value.0 != Spell(tape[..DefaultLength])
  {
  }

  /** The `url_shortener` table, held by the store in insertion order. */
  class UrlTable {
    var rows: seq<Row>
    /** The identity value the next inserted row receives. */
    var nextId: int

    /** The `unique` and `varchar(10)` constraints, and increasing identities. */
    ghost predicate Valid()
      reads this
    {
      && CodesDistinct(rows)
      && (forall r <- rows :: |r.shortCode| <= MaxCodeLength)
      && (forall i, j :: 0 <= i < j < |rows| ==> rows[i].id < rows[j].id)
      && (forall r <- rows :: r.id < nextId)
    }

    function Codes(): set<string>
      reads this
    {
      set r <- rows :: r.shortCode
    }

    /** An empty table whose identity column starts at 1. */
    constructor ()
      ensures Valid() && rows == [] && nextId == 1
    {
      rows := [];
      nextId := 1;
    }

    /** `select().from(urlShortenerTable).where(eq(short_code, code))`. */
    function SelectByCode(code: string): (m: seq<Row>)
      reads this
      ensures |m| > 0 <==> code in Codes()
    {
      var m := Matching(rows, code);
      assert |m| > 0 ==> m[0] in m;
      assert code in Codes() ==> exists r :: r in rows && r.shortCode == code && r in m;
      m
    }

    /**
     * `insert(urlShortenerTable).values({original_url, short_code})`: the
     * store refuses a code it already holds or one longer than the column.
     */
    method Insert(url: string, code: string) returns (ok: bool)
      requires Valid()
      modifies this
      ensures Valid()
      ensures ok <==> code !in old(Codes()) && |code| <= MaxCodeLength
      ensures ok ==> rows == old(rows) + [Row(old(nextId), url, code)] && nextId == old(nextId) + 1
      ensures !ok ==> rows == old(rows) && nextId == old(nextId)
    {
      ok := code !in Codes() && |code| <= MaxCodeLength;
      if ok {
        assert forall r <- rows :: r.shortCode != code;
        rows := rows + [Row(nextId, url, code)];
        nextId := nextId + 1;
      }
    }

    /**
     * `createShortUrl(originalUrl)`: draw default-length codes until one is
     * not in the table, then insert it with the URL and return it.
     */
    method CreateShortUrl(url: string, tape: seq<Draw>) returns (r: Result<string, SeedError>, rest: seq<Draw>)
      requires Valid()
      modifies this
      ensures Valid()
      ensures match FirstFresh(old(Codes()), tape)
              case Some((code, left)) =>
                && r == Success(code) && rest == left
                && rows == old(rows) + [Row(old(nextId), url, code)] && nextId == old(nextId) + 1
              case None =>
                r == Failure(DrawsExhausted) && rows == old(rows) && nextId == old(nextId)
    {
      var shortcode := "";
      var clash := true;
      rest := tape;
      while clash
        invariant rows == old(rows) && nextId == old(nextId)
        invariant clash ==> FirstFresh(Codes(), tape) == FirstFresh(Codes(), rest)
        invariant !clash ==> FirstFresh(Codes(), tape) == Some((shortcode, rest))
        decreases |rest|
      {
        if |rest| < DefaultLength {
          return Failure(DrawsExhausted), rest;
        }
        shortcode, rest := GenerateShortcode(DefaultLength, rest);
        clash := |SelectByCode(shortcode)| > 0;
      }
      var ok := Insert(url, shortcode);
      assert ok;
      r := Success(shortcode);
    }

    /**
     * `main(count)`: for i = 1 .. count, build a dummy URL for i and shorten
     * it. Each row added carries a dummy URL for its index, and the codes of
     * the table stay pairwise distinct.
     */
    method Seed(count: int, tape: seq<Draw>) returns (r: Outcome<SeedError>)
      requires Valid()
      modifies this
      ensures Valid()
      ensures |old(rows)| <= |rows| && rows[..|old(rows)|] == old(rows)
      ensures forall k :: |old(rows)| <= k < |rows| ==> IsDummyUrl(rows[k].originalUrl, k - |old(rows)| + 1)
      ensures r.Pass? ==> |rows| == |old(rows)| + (if count <= 0 then 0 else count)
      ensures r.Fail? ==> |rows| < |old(rows)| + count && r.error == DrawsExhausted
    {
      var left := tape;
      var i := 1;
      while i <= count
        invariant Valid()
        invariant 1 <= i <= (if count < 1 then 1 else count + 1)
        invariant |rows| == |old(rows)| + i - 1 && rows[..|old(rows)|] == old(rows)
        invariant forall k :: |old(rows)| <= k < |rows| ==> IsDummyUrl(rows[k].originalUrl, k - |old(rows)| + 1)
      {
        if !CanDrawUrl(left) {
          return Fail(DrawsExhausted);
        }
        var dummy := GenerateDummyUrl(i, left);
        left := dummy.1;
        ghost var before := rows;
        var created;
        created, left := CreateShortUrl(dummy.0, left);
        if created.Failure? {
          return Fail(created.error);
        }
        assert rows == before + [rows[|rows| - 1]];
        i := i + 1;
      }
      r := Pass;
    }
  }

}
