/**
 * The pure half of the URL-shortener seeding script: the random short code
 * and the random dummy URL. Each consumes draws from the front of a tape and
 * hands back what is left of it.
 */
module Shortcode {
  import opened Random
  import opened Decimal

  /** The 62 characters a short code is made of: upper case, lower case, digits. */
  const Alphabet: string := "ABCDEFGHIJKLMNOPQRSTUVWXYZ" + "abcdefghijklmnopqrstuvwxyz" + "0123456789"

  /** The length `generateShortcode` uses when called without one. */
  const DefaultLength: nat := 6

  /** The width of the `short_code` column. */
  const MaxCodeLength: nat := 10

  predicate OverAlphabet(s: string)
  {
    forall c <- s :: c in Alphabet
  }

  /** The character one draw selects from the alphabet. */
  function CharOf(u: Draw): (c: char)
    ensures c in Alphabet
  {
    Alphabet[Below(u, |Alphabet|)]
  }

  /** The code a run of draws spells, one character per draw. */
  function Spell(draws: seq<Draw>): (s: string)
    ensures |s| == |draws|
  {
    seq(|draws|, i requires 0 <= i < |draws| => CharOf(draws[i]))
  }

  /** Spelt codes are over the alphabet. */
  lemma SpellOverAlphabet(draws: seq<Draw>)
    ensures OverAlphabet(Spell(draws))
  {
  }

  /** The first position of `c` in `s`. */
  function IndexOf(s: string, c: char): (i: nat)
    requires c in s
    ensures i < |s| && s[i] == c
  {
    if s[0] == c then 0 else 1 + IndexOf(s[1..], c)
  }

  /** A tape of draws that spells `code`. */
  function Unspell(code: string): (draws: seq<Draw>)
    requires OverAlphabet(code)
    ensures |draws| == |code|
  {
    seq(|code|, i requires 0 <= i < |code| => Reaching(IndexOf(Alphabet, code[i]), |Alphabet|))
  }

  /**
   * Every string over the alphabet is a code the generator can produce: the
   * draws `Unspell` picks spell it back.
   */
  lemma SpellUnspell(code: string)
    requires OverAlphabet(code)
    ensures Spell(Unspell(code)) == code
  {
    var draws := Unspell(code);
    forall i | 0 <= i < |code|
      ensures Spell(draws)[i] == code[i]
    {
      assert Below(draws[i], |Alphabet|) == IndexOf(Alphabet, code[i]);
    }
  }

  /**
   * `generateShortcode(length)`: append one drawn character per round,
   * `length` rounds; a length of zero or less gives the empty code.
   */
  method GenerateShortcode(length: int, tape: seq<Draw>) returns (code: string, rest: seq<Draw>)
    requires |tape| >= length
    ensures |code| == if length <= 0 then 0 else length
    ensures OverAlphabet(code)
    ensures tape == tape[..|code|] + rest && code == Spell(tape[..|code|])
  {
    code := "";
    var i := 0;
    while i < length
      invariant 0 <= i <= (if length <= 0 then 0 else length)
      invariant code == Spell(tape[..i])
    {
      code := code + [CharOf(tape[i])];
      i := i + 1;
    }
    rest := tape[i..];
  }

  const Domains: seq<string> := ["example.com", "testsite.org", "dummy.net", "mysite.io"]
  const Paths: seq<string> := ["about", "contact", "blog", "product", "category", "search"]
  const Queries: seq<string> := ["?id=123", "?ref=abc", "?page=2", "?sort=asc"]

  /** The URL `generateDummyUrl` builds from its pool picks. */
  function DummyUrl(domain: string, path: string, index: nat, query: string): string
  {
    "https://" + domain + "/" + path + "/" + Show(index) + query
  }

  /** A URL made from one domain, one path, the index and no query or one query. */
  ghost predicate IsDummyUrl(url: string, index: nat)
  {
    exists d, p, q | d in Domains && p in Paths && (q == "" || q in Queries) ::
      url == DummyUrl(d, p, index, q)
  }

  /**
   * The tape holds the draws `generateDummyUrl` makes: one for the domain, one
   * for the path, the coin for the query, and one for the query on heads.
   */
  predicate CanDrawUrl(tape: seq<Draw>)
  {
    |tape| >= 3 && (Heads(tape[2]) ==> |tape| >= 4)
  }

  /** `generateDummyUrl(index)`: the URL and the tape left after its draws. */
  function GenerateDummyUrl(index: nat, tape: seq<Draw>): (r: (string, seq<Draw>))
    requires CanDrawUrl(tape)
    ensures IsDummyUrl(r.0, index)
    ensures |tape| - |r.1| == (if Heads(tape[2]) then 4 else 3) && r.1 == tape[|tape| - |r.1|..]
  {
    var domain := Domains[Below(tape[0], |Domains|)];
    var path := Paths[Below(tape[1], |Paths|)];
    var query := if Heads(tape[2]) then Queries[Below(tape[3], |Queries|)] else "";
    var used := if Heads(tape[2]) then 4 else 3;
    (DummyUrl(domain, path, index, query), tape[used..])
  }

  /**
   * Every combination of the pools is produced by some tape: the generator
   * never misses a domain, a path or a query.
   */
  lemma DummyUrlReachable(index: nat, d: nat, p: nat, q: nat, withQuery: bool)
    requires d < |Domains| && p < |Paths| && q < |Queries|
    ensures var tape := [Reaching(d, |Domains|), Reaching(p, |Paths|),
                         if withQuery then 0 else Resolution / 2, Reaching(q, |Queries|)];
            CanDrawUrl(tape) &&
            GenerateDummyUrl(index, tape).0 ==
              DummyUrl(Domains[d], Paths[p], index, if withQuery then Queries[q] else "")
  {
  }
}
