/** The random sources of the payload synthesizer: every generator call of
    the faker library and every `Math.random` draw is read from an oracle,
    indexed by which generator is called and where in the payload. Nothing
    is assumed about the strings, reals and flags an oracle yields; integer
    draws are reduced into the range the call asks for. */
module Oracle {

  /** The generator behind a draw. */
  datatype Gen =
    | Email | FirstName | LastName | UserName | Password | Phone
    | StreetAddress | City | State | Country | ZipCode
    | Latitude | Longitude | Float | Rating | Gpa
    | ImageUrl | Paragraph | Sentence | WebUrl | Alphanumeric32
    | MongoId | Uuid | RecentIso | PastIso(years: nat)
    | Rgb | CompanyName | BuzzNoun | JobTitle
    | Word | LoremWord | Flag
    | IntDraw(min: int, max: int) | RandomIndex | ArrayElement

  /** A draw site: the generator and the position in the payload, as a path
      of indices (the top-level field, then item and member positions). */
  datatype Site = Site(gen: Gen, path: seq<int>)

  /** What the random sources yield at each site. */
  datatype Oracle = Oracle(
    text: Site -> string,
    draw: Site -> nat,
    number: Site -> real,
    flag: Site -> bool)

  /** `faker.number.int({ min: lo, max: hi })`. */
  function IntIn(o: Oracle, p: seq<int>, lo: int, hi: int): (r: int)
    requires lo <= hi
    ensures lo <= r <= hi
  {
    lo + o.draw(Site(IntDraw(lo, hi), p)) % (hi - lo + 1)
  }

  /** Every integer of the range is drawn by some oracle. */
  lemma IntInOnto(p: seq<int>, lo: int, hi: int, r: int)
    requires lo <= r <= hi
    ensures exists o: Oracle :: IntIn(o, p, lo, hi) == r
  {
    var o := Oracle(_ => "", _ => r - lo, _ => 0.0, _ => false);
    assert IntIn(o, p, lo, hi) == r;
  }

  /** An index into a list of `n` elements drawn by `gen`
      (`Math.floor(Math.random() * n)`, `faker.helpers.arrayElement`). */
  function IndexIn(o: Oracle, gen: Gen, p: seq<int>, n: nat): (r: nat)
    requires n > 0
    ensures r < n
  {
    o.draw(Site(gen, p)) % n
  }

  /** A string produced by generator `gen` at some site. */
  ghost predicate DrawnBy(o: Oracle, gen: Gen, s: string)
  {
    exists p :: s == o.text(Site(gen, p))
  }
}
