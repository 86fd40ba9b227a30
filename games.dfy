/** `AmazonGame.new_from_amazon_game`: the mapping of a raw entitlement onto a library game
    record, and the list comprehension of `load` that maps a whole library. `slugify` and
    `json.dumps` are library calls outside this model and come in as parameters. */
module Games {
  import opened Wrappers
  import opened SyncProtocol

  datatype Game = Game(appid: string, slug: string, name: string, details: string)

  function DigitChar(d: int): char
    requires 0 <= d < 10
  {
    ('0' as int + d) as char
  }

  /** A decimal numeral as Python writes one: digits only, and no leading zero unless the
      numeral is "0" itself. */
  predicate IsCanonicalDecimal(s: string)
  {
    |s| > 0 && (forall i :: 0 <= i < |s| ==> '0' <= s[i] <= '9') && (|s| == 1 || s[0] != '0')
  }

  /** Decimal digits of a natural number, most significant first. */
  function Digits(n: nat): (s: string)
    ensures IsCanonicalDecimal(s)
    ensures s[0] == '0' <==> n == 0
  {
    if n < 10 then [DigitChar(n)] else Digits(n / 10) + [DigitChar(n % 10)]
  }

  function DigitsValue(s: string): int
  {
    if s == [] then 0 else 10 * DigitsValue(s[..|s| - 1]) + (s[|s| - 1] as int - '0' as int)
  }

  lemma {:induction false} DigitsRoundTrip(n: nat)
    ensures DigitsValue(Digits(n)) == n
  {
    if n >= 10 {
      DigitsRoundTrip(n / 10);
      var s := Digits(n);
      assert s[..|s| - 1] == Digits(n / 10);
    }
  }

  /** `str()` of a JSON id: a string is itself, a number its decimal form. */
  function IdString(id: IdValue): (s: string)
    ensures id.IdText? ==> s == id.text
    ensures id.IdNumber? && id.number >= 0 ==> IsCanonicalDecimal(s) && DigitsValue(s) == id.number
    ensures id.IdNumber? && id.number < 0 ==>
              |s| > 1 && s[0] == '-' && IsCanonicalDecimal(s[1..]) && DigitsValue(s[1..]) == -id.number
  {
    match id
    case IdText(text) => text
    case IdNumber(number) =>
      if number >= 0 then DigitsRoundTrip(number); Digits(number)
      else DigitsRoundTrip(-number); assert ("-" + Digits(-number))[1..] == Digits(-number); "-" + Digits(-number)
  }

  /** An entitlement the mapping accepts: it has an `id` and a `product.title`. */
  predicate Mappable(e: Entitlement)
  {
    e.id.Some? && e.title.Some?
  }

  /** `new_from_amazon_game`; `None` is the KeyError of a record without `id` or `product.title`. */
  function NewFromAmazonGame(e: Entitlement, slugify: string -> string, dumps: Entitlement -> string): (r: Option<Game>)
    ensures r.Some? <==> Mappable(e)
    ensures r.Some? ==> r.value.appid == IdString(e.id.value) && r.value.name == e.title.value
    ensures r.Some? ==> r.value.slug == slugify(e.title.value) && r.value.details == dumps(e)
  {
    match (e.id, e.title)
    case (Some(id), Some(title)) => Some(Game(IdString(id), slugify(title), title, dumps(e)))
    case _ => None
  }

  /** The list comprehension of `load`: one game per entitlement, in order, or `None` as soon
      as one record cannot be mapped. */
  function MapGames(es: seq<Entitlement>, slugify: string -> string, dumps: Entitlement -> string)
    : (r: Option<seq<Game>>)
    ensures r.Some? <==> forall i :: 0 <= i < |es| ==> Mappable(es[i])
    ensures r.Some? ==> |r.value| == |es|
    ensures r.Some? ==> forall i :: 0 <= i < |es| ==>
              r.value[i].appid == IdString(es[i].id.value) && r.value[i].name == es[i].title.value &&
              Some(r.value[i]) == NewFromAmazonGame(es[i], slugify, dumps)
  {
    if es == [] then Some([])
    else
      match (NewFromAmazonGame(es[0], slugify, dumps), MapGames(es[1..], slugify, dumps))
      case (Some(g), Some(gs)) => Some([g] + gs)
      case _ => None
  }
}
