/** The product catalog's query pipeline: the response normaliser, the
    accent- and case-insensitive name search, the category and price filters,
    the stable sort and the fixed-size pagination, plus the price a product is
    added to the cart and quoted at. */
module Catalog {
  import opened Common
  import CartReducer

  // ---------------------------------------------------------------------
  // normalizeText: toLowerCase, NFD, then strip \p{Diacritic}
  // ---------------------------------------------------------------------

  /** toLowerCase on ASCII and Latin-1 capitals; other characters unchanged. */
  function Lower(c: char): char {
    if 'A' <= c <= 'Z' || ('\U{C0}' <= c <= '\U{DE}' && c != '\U{D7}') then
      (c as int + 32) as char
    else
      c
  }

  /** The lower-case Latin-1 letters that have a canonical decomposition:
      à–å, ç, è–ï, ñ, ò–ö, ù–ý and ÿ (not æ, ð, ÷, ø, þ). */
  predicate Precomposed(c: char) {
    && '\U{E0}' <= c <= '\U{FF}'
    && c != '\U{E6}' && c != '\U{F0}' && c != '\U{F7}' && c != '\U{F8}' && c != '\U{FE}'
  }

  /** The ASCII letter a precomposed letter decomposes to. */
  function BaseLetter(c: char): (r: char)
    requires Precomposed(c)
    ensures 'a' <= r <= 'z'
  {
    if c <= '\U{E5}' then 'a'
    else if c == '\U{E7}' then 'c'
    else if c <= '\U{EB}' then 'e'
    else if c <= '\U{EF}' then 'i'
    else if c == '\U{F1}' then 'n'
    else if c <= '\U{F6}' then 'o'
    else if c <= '\U{FC}' then 'u'
    else 'y'
  }

  /** The combining mark a precomposed letter decomposes to: grave U+0300,
      acute U+0301, circumflex U+0302, tilde U+0303, diaeresis U+0308, ring
      above U+030A or cedilla U+0327. */
  function Mark(c: char): (r: char)
    requires Precomposed(c)
    ensures '\U{300}' <= r <= '\U{327}'
  {
    if c == '\U{E0}' || c == '\U{E8}' || c == '\U{EC}' || c == '\U{F2}' || c == '\U{F9}' then '\U{300}'
    else if c == '\U{E1}' || c == '\U{E9}' || c == '\U{ED}' || c == '\U{F3}' || c == '\U{FA}' || c == '\U{FD}' then '\U{301}'
    else if c == '\U{E2}' || c == '\U{EA}' || c == '\U{EE}' || c == '\U{F4}' || c == '\U{FB}' then '\U{302}'
    else if c == '\U{E3}' || c == '\U{F1}' || c == '\U{F5}' then '\U{303}'
    else if c == '\U{E5}' then '\U{30A}'
    else if c == '\U{E7}' then '\U{327}'
    else '\U{308}'
  }

  /** Canonical decomposition (NFD) as far as the model needs it: a
      precomposed letter becomes its base letter and its mark, any other
      character stays. */
  function Decompose(c: char): string {
    if Precomposed(c) then [BaseLetter(c), Mark(c)] else [c]
  }

  /** The characters with the Unicode Diacritic property that the model knows:
      the spacing accents of Latin-1, the spacing modifier letters and the
      combining diacritical marks. */
  predicate IsDiacritic(c: char) {
    || '\U{2B0}' <= c <= '\U{2FF}'
    || '\U{300}' <= c <= '\U{34E}'
    || '\U{350}' <= c <= '\U{357}'
    || '\U{35D}' <= c <= '\U{362}'
    || c == '^' || c == '`'
    || c == '\U{A8}' || c == '\U{AF}' || c == '\U{B4}' || c == '\U{B7}' || c == '\U{B8}'
  }

  /** Drops the diacritics and keeps every other character, in order. */
  function StripDiacritics(s: string): (r: string)
    ensures forall i :: 0 <= i < |r| ==> !IsDiacritic(r[i])
    ensures forall x :: x in r <==> x in s && !IsDiacritic(x)
    ensures IsSubsequence(r, s)
    ensures |s| == 1 ==> r == (if IsDiacritic(s[0]) then [] else s)
  {
    if s == [] then []
    else
      var rest := StripDiacritics(s[1..]);
      assert forall x :: x in s <==> x == s[0] || x in s[1..];
      if IsDiacritic(s[0]) then
        assert rest != [] ==> rest[0] != s[0];
        rest
      else
        assert ([s[0]] + rest)[1..] == rest;
        [s[0]] + rest
  }

  /** Stripping works piece by piece; with the one-character case above this
      fixes the result exactly, every kept character with all its copies. */
  lemma {:induction false} StripDiacriticsAppend(a: string, b: string)
    ensures StripDiacritics(a + b) == StripDiacritics(a) + StripDiacritics(b)
    decreases |a|
  {
    if a == [] {
      assert a + b == b;
    } else {
      assert (a + b)[1..] == a[1..] + b;
      StripDiacriticsAppend(a[1..], b);
    }
  }

  /** Hence the count of every character: diacritics vanish, the others keep
      all their copies. */
  lemma {:induction false} StripDiacriticsCounts(s: string)
    ensures forall x :: multiset(StripDiacritics(s))[x] == if IsDiacritic(x) then 0 else multiset(s)[x]
    decreases |s|
  {
    if s != [] {
      assert s == [s[0]] + s[1..];
      StripDiacriticsAppend([s[0]], s[1..]);
      StripDiacriticsCounts(s[1..]);
    }
  }

  /** A character normalizeText leaves as it is. */
  predicate Folded(c: char) {
    Lower(c) == c && Decompose(c) == [c] && !IsDiacritic(c)
  }

  lemma LowerIdempotent(c: char)
    ensures Lower(Lower(c)) == Lower(c)
  {
  }

  /** What normalizeText turns one character into: an accented letter its
      base letter, a diacritic nothing, anything else its lower case. */
  function Fold(c: char): (r: string)
    ensures |r| <= 1
    ensures forall i :: 0 <= i < |r| ==> Folded(r[i])
    ensures r == [] <==> IsDiacritic(Lower(c))
    ensures Precomposed(Lower(c)) ==> r == [BaseLetter(Lower(c))]
    ensures !Precomposed(Lower(c)) && !IsDiacritic(Lower(c)) ==> r == [Lower(c)]
  {
    var l := Lower(c);
    LowerIdempotent(c);
    if Precomposed(l) then
      var d := [BaseLetter(l), Mark(l)];
      assert d[1..] == [Mark(l)] && [Mark(l)][1..] == [];
      assert StripDiacritics([Mark(l)]) == [];
      assert StripDiacritics(d) == [d[0]] + StripDiacritics([Mark(l)]);
      StripDiacritics(d)
    else
      assert StripDiacritics([l]) == (if IsDiacritic(l) then [] else [l]) + StripDiacritics([]);
      StripDiacritics([l])
  }

  function Normalize(s: string): (r: string)
    ensures forall i :: 0 <= i < |r| ==> Folded(r[i])
    ensures |r| <= |s|
  {
    if s == [] then [] else Fold(s[0]) + Normalize(s[1..])
  }

  lemma {:induction false} NormalizeAppend(a: string, b: string)
    ensures Normalize(a + b) == Normalize(a) + Normalize(b)
    decreases |a|
  {
    if a == [] {
      assert a + b == b;
    } else {
      assert (a + b)[1..] == a[1..] + b;
      NormalizeAppend(a[1..], b);
    }
  }

  lemma {:induction false} NormalizeFixesFolded(s: string)
    requires forall i :: 0 <= i < |s| ==> Folded(s[i])
    ensures Normalize(s) == s
    decreases |s|
  {
    if s != [] {
      NormalizeFixesFolded(s[1..]);
      assert Fold(s[0]) == [s[0]];
    }
  }

  /** A text none of whose characters lower-cases to a diacritic normalises
      character by character: each one to its single folded character. */
  lemma {:induction false} NormalizeLetterByLetter(s: string)
    requires forall i :: 0 <= i < |s| ==> !IsDiacritic(Lower(s[i]))
    ensures |Normalize(s)| == |s|
    ensures forall i :: 0 <= i < |s| ==> Fold(s[i]) == [Normalize(s)[i]]
    decreases |s|
  {
    if s != [] {
      NormalizeLetterByLetter(s[1..]);
      var head, tail := Fold(s[0]), Normalize(s[1..]);
      assert |head| == 1;
      forall i | 0 <= i < |s| ensures Fold(s[i]) == [Normalize(s)[i]] {
        if i > 0 {
          assert s[i] == s[1..][i - 1];
          assert Normalize(s)[i] == tail[i - 1];
        }
      }
    }
  }

  /** Normalising twice is normalising once. */
  lemma NormalizeIdempotent(s: string)
    ensures Normalize(Normalize(s)) == Normalize(s)
  {
    NormalizeFixesFolded(Normalize(s));
  }

  /** The name search: the normalised term occurs in the normalised name. */
  predicate MatchesSearch(name: string, term: string) {
    Includes(Normalize(name), Normalize(term))
  }

  /** An empty search term matches every name. */
  lemma EmptySearchMatchesAll(name: string)
    ensures MatchesSearch(name, "")
  {
    assert "" <= Normalize(name)[0..];
  }

  /** When every character folds to exactly one character, the normalised
      text is those characters in order. */
  lemma {:induction false} NormalizePointwise(s: string, t: string)
    requires |s| == |t|
    requires forall i :: 0 <= i < |s| ==> Fold(s[i]) == [t[i]]
    ensures Normalize(s) == t
    decreases |s|
  {
    if s != [] {
      NormalizePointwise(s[1..], t[1..]);
      assert t == [t[0]] + t[1..];
    }
  }

  lemma FoldLetter(c: char)
    ensures 'a' <= c <= 'z' ==> Fold(c) == [c]
    ensures 'A' <= c <= 'Z' ==> Fold(c) == [(c as int + 32) as char]
    ensures c == '\U{E1}' || c == '\U{C1}' ==> Fold(c) == "a"
  {
  }

  /** Normalising leaves "ofrendas" as it is. */
  lemma PlainNameNormalizes()
    ensures Normalize("ofrendas") == "ofrendas"
  {
    var t := "ofrendas";
    assert forall i :: 0 <= i < |t| ==> 'a' <= t[i] <= 'z';
    NormalizeFixesFolded(t);
  }

  /** Accents and capitals are dropped: "Ofrendás" normalises to "ofrendas". */
  lemma AccentedNameNormalizes()
    ensures Normalize("Ofrend\U{E1}s") == "ofrendas"
  {
    var s, t := "Ofrend\U{E1}s", "ofrendas";
    forall i | 0 <= i < |s| ensures Fold(s[i]) == [t[i]] {
      FoldLetter(s[i]);
    }
    NormalizePointwise(s, t);
  }

  /** Capitals and accents typed in the search are dropped as well. */
  lemma CapitalSearchNormalizes()
    ensures Normalize("OFREND\U{C1}S") == "ofrendas"
  {
    var s, t := "OFREND\U{C1}S", "ofrendas";
    forall i | 0 <= i < |s| ensures Fold(s[i]) == [t[i]] {
      FoldLetter(s[i]);
    }
    NormalizePointwise(s, t);
  }

  /** Searching "ofrendas" or "OFRENDÁS" finds the product named "Ofrendás". */
  lemma SearchIgnoresAccentsAndCase()
    ensures MatchesSearch("Ofrend\U{E1}s", "ofrendas")
    ensures MatchesSearch("Ofrend\U{E1}s", "OFREND\U{C1}S")
  {
    AccentedNameNormalizes();
    PlainNameNormalizes();
    CapitalSearchNormalizes();
    var t := "ofrendas";
    assert t <= t[0..];
  }

  // ---------------------------------------------------------------------
  // The products and the response normaliser of fetchProducts
  // ---------------------------------------------------------------------

  datatype Image = Image(url: string, publicId: string)

  /** An entry of a product's `images` as the listing endpoint returns it: a
      bare URL string, an object with (possibly empty) `url`, or anything else. */
  datatype RawImage =
    | UrlText(url: string)
    | UrlObject(url: string, publicId: string)
    | OtherValue

  datatype RawProduct = RawProduct(
    rawId: string, name: string, category: string, description: string, price: int,
    images: Option<seq<RawImage>>, featured: Option<bool>, onSale: Option<bool>,
    salePrice: Option<int>)

  datatype Product = Product(
    id: string, name: string, category: string, description: string, price: int,
    images: seq<Image>, featured: bool, onSale: bool, salePrice: Option<int>)

  function NormalizeImage(img: RawImage): Option<Image> {
    match img
    case UrlText(url) => Some(Image(url, ""))
    case UrlObject(url, publicId) => if url != "" then Some(Image(url, publicId)) else None
    case OtherValue => None
  }

  /** The `map`/`filter` over a product's images: a URL string becomes an
      image with an empty public id, an object with a non-empty url is kept,
      anything else is dropped; the kept images stay in order. */
  function NormalizeImages(raw: seq<RawImage>): (r: seq<Image>)
    ensures |r| <= |raw|
    ensures forall u :: UrlText(u) in raw ==> Image(u, "") in r
    ensures forall u, id :: UrlObject(u, id) in raw && u != "" ==> Image(u, id) in r
    ensures forall im :: im in r ==>
      (im.publicId == "" && UrlText(im.url) in raw) || (im.url != "" && UrlObject(im.url, im.publicId) in raw)
  {
    if raw == [] then []
    else
      var rest := NormalizeImages(raw[1..]);
      assert forall x :: x in raw[1..] ==> x in raw;
      assert forall x :: x in raw ==> x == raw[0] || x in raw[1..];
      match NormalizeImage(raw[0])
      case Some(im) => [im] + rest
      case None => rest
  }

  lemma {:induction false} NormalizeImagesAppend(a: seq<RawImage>, b: seq<RawImage>)
    ensures NormalizeImages(a + b) == NormalizeImages(a) + NormalizeImages(b)
    decreases |a|
  {
    if a == [] {
      assert a + b == b;
    } else {
      assert (a + b)[1..] == a[1..] + b;
      NormalizeImagesAppend(a[1..], b);
    }
  }

  /** One product of the listing in the shape the page uses: `id` taken from
      `_id`, missing images read as none, `featured` and `onSale` false unless
      set, and the sale price passed through. */
  function NormalizeProduct(p: RawProduct): (r: Product)
    ensures r.id == p.rawId && r.name == p.name && r.category == p.category
    ensures r.price == p.price && r.salePrice == p.salePrice
    ensures r.description == p.description
    ensures p.images.None? ==> r.images == []
    ensures p.images.Some? ==> r.images == NormalizeImages(p.images.value)
    ensures r.featured <==> p.featured == Some(true)
    ensures r.onSale <==> p.onSale == Some(true)
  {
    Product(p.rawId, p.name, p.category, p.description, p.price,
            NormalizeImages(match p.images case Some(imgs) => imgs case None => []),
            p.featured == Some(true), p.onSale == Some(true), p.salePrice)
  }

  function NormalizeAll(raw: seq<RawProduct>): (r: seq<Product>)
    ensures |r| == |raw|
    ensures forall i :: 0 <= i < |raw| ==> r[i] == NormalizeProduct(raw[i])
  {
    if raw == [] then [] else [NormalizeProduct(raw[0])] + NormalizeAll(raw[1..])
  }

  // ---------------------------------------------------------------------
  // The price a product goes to the cart and to the inquiry message at
  // ---------------------------------------------------------------------

  /** `onSale && salePrice ? salePrice : price`: a sale price of 0 is falsy. */
  function EffectivePrice(p: Product): (r: int)
    ensures r == p.price || (p.salePrice.Some? && r == p.salePrice.value)
    ensures r != p.price ==> p.onSale && p.salePrice.Some? && p.salePrice.value != 0
    ensures p.onSale && p.salePrice.Some? && p.salePrice.value != 0 ==> r == p.salePrice.value
  {
    if p.onSale && p.salePrice.Some? && p.salePrice.value != 0 then p.salePrice.value else p.price
  }

  lemma ZeroSalePriceFallsBack(p: Product)
    requires p.salePrice == Some(0)
    ensures EffectivePrice(p) == p.price
  {
  }

  /** The payload of `addItem` from the add-to-cart button: the first image's
      url, when there is one, goes along as the line's picture. */
  function CartPayload(p: Product): (r: CartReducer.CartItem)
    ensures r.id == p.id && r.name == p.name && r.price == EffectivePrice(p)
    ensures r.image.Some? <==> |p.images| > 0
    ensures |p.images| > 0 ==> r.image == Some(p.images[0].url)
    ensures r.quantity == 1
  {
    CartReducer.CartItem(p.id, p.name, EffectivePrice(p), 1,
                         if |p.images| > 0 then Some(p.images[0].url) else None)
  }

  const InquiryOpening := "\U{A1}Hola! Me interesa el producto \""
  const InquiryPriceLead := "\" de precio $"
  const InquiryClosing := ". \U{BF}Podr\U{ED}as darme m\U{E1}s informaci\U{F3}n?"

  /** The per-product WhatsApp inquiry text. */
  function InquiryMessage(p: Product): string {
    InquiryOpening + p.name + InquiryPriceLead + IntToDecimal(EffectivePrice(p)) + InquiryClosing
  }

  /** The price quoted in an inquiry is the one the cart would charge, and it
      reads back as that number. */
  lemma InquiryQuotesCartPrice(p: Product)
    ensures var quoted := IntToDecimal(CartPayload(p).price);
      && InquiryMessage(p) == InquiryOpening + p.name + InquiryPriceLead + quoted + InquiryClosing
      && ParseInt(quoted) == Some(CartPayload(p).price)
  {
    IntDecimalRoundTrip(EffectivePrice(p));
  }

  // ---------------------------------------------------------------------
  // The filter
  // ---------------------------------------------------------------------

  /** A price bound read from the query string: absent or empty, a number, or
      text that Number() turns into NaN (against which every comparison fails). */
  datatype PriceBound = Unset | Value(amount: int) | NotANumber

  datatype Filter = Filter(category: string, searchTerm: string, min: PriceBound, max: PriceBound)

  const AllCategories := "Todas"

  predicate AtLeast(price: int, b: PriceBound) {
    match b
    case Unset => true
    case Value(v) => price >= v
    case NotANumber => false
  }

  predicate AtMost(price: int, b: PriceBound) {
    match b
    case Unset => true
    case Value(v) => price <= v
    case NotANumber => false
  }

  predicate Matches(p: Product, f: Filter) {
    && (f.category == AllCategories || p.category == f.category)
    && MatchesSearch(p.name, f.searchTerm)
    && AtLeast(p.price, f.min) && AtMost(p.price, f.max)
  }

  /** `products.filter(...)`: the matching products, in their listing order. */
  function FilterProducts(ps: seq<Product>, f: Filter): (r: seq<Product>)
    ensures IsSubsequence(r, ps)
    ensures forall p :: p in r <==> p in ps && Matches(p, f)
    ensures forall p :: multiset(r)[p] == if Matches(p, f) then multiset(ps)[p] else 0
  {
    if ps == [] then []
    else
      var rest := FilterProducts(ps[1..], f);
      assert forall x :: x in ps <==> x == ps[0] || x in ps[1..];
      assert ps == [ps[0]] + ps[1..];
      if Matches(ps[0], f) then [ps[0]] + rest else rest
  }

  /** With every criterion left open, the filter keeps the whole listing. */
  lemma {:induction false} OpenFilterKeepsAll(ps: seq<Product>, f: Filter)
    requires f.category == AllCategories && f.searchTerm == "" && f.min == Unset && f.max == Unset
    ensures FilterProducts(ps, f) == ps
    decreases |ps|
  {
    if ps != [] {
      EmptySearchMatchesAll(ps[0].name);
      OpenFilterKeepsAll(ps[1..], f);
    }
  }

  // ---------------------------------------------------------------------
  // sortProducts: a stable sort on a copy
  // ---------------------------------------------------------------------

  datatype SortKey = ByName | PriceAscending | PriceDescending

  /** `localeCompare(a, b) <= 0`, with code-point lexicographic order standing in
      for the locale's collation. */
  predicate NameLeq(a: string, b: string)
    decreases |a|
  {
    if a == [] then true
    else if b == [] then false
    else if a[0] != b[0] then a[0] < b[0]
    else NameLeq(a[1..], b[1..])
  }

  lemma {:induction false} NameLeqTotal(a: string, b: string)
    ensures NameLeq(a, b) || NameLeq(b, a)
    decreases |a|
  {
    if a != [] && b != [] && a[0] == b[0] {
      NameLeqTotal(a[1..], b[1..]);
    }
  }

  lemma {:induction false} NameLeqTransitive(a: string, b: string, c: string)
    requires NameLeq(a, b) && NameLeq(b, c)
    ensures NameLeq(a, c)
    decreases |a|
  {
    if a != [] && b != [] && c != [] && a[0] == b[0] && b[0] == c[0] {
      NameLeqTransitive(a[1..], b[1..], c[1..]);
    }
  }

  /** The comparator of sortProducts, as "a may stay before b". */
  predicate Leq(key: SortKey, a: Product, b: Product) {
    match key
    case ByName => NameLeq(a.name, b.name)
    case PriceAscending => a.price <= b.price
    case PriceDescending => b.price <= a.price
  }

  lemma LeqTotal(key: SortKey, a: Product, b: Product)
    ensures Leq(key, a, b) || Leq(key, b, a)
  {
    if key == ByName {
      NameLeqTotal(a.name, b.name);
    }
  }

  lemma LeqTransitive(key: SortKey, a: Product, b: Product, c: Product)
    requires Leq(key, a, b) && Leq(key, b, c)
    ensures Leq(key, a, c)
  {
    if key == ByName {
      NameLeqTransitive(a.name, b.name, c.name);
    }
  }

  predicate SortedBy(key: SortKey, s: seq<Product>) {
    forall i, j :: 0 <= i < j < |s| ==> Leq(key, s[i], s[j])
  }

  /** A product that may precede every element of a sorted sequence can be
      put in front of it. */
  lemma ConsSorted(key: SortKey, x: Product, s: seq<Product>)
    requires SortedBy(key, s)
    requires forall j :: 0 <= j < |s| ==> Leq(key, x, s[j])
    ensures SortedBy(key, [x] + s)
  {
    var r := [x] + s;
    forall i, j | 0 <= i < j < |r| ensures Leq(key, r[i], r[j]) {
      assert r[j] == s[j - 1];
      if i > 0 {
        assert r[i] == s[i - 1];
      }
    }
  }

  /** What may precede the first element of a sorted sequence may precede
      all of it. */
  lemma PrecedesAll(key: SortKey, x: Product, s: seq<Product>)
    requires SortedBy(key, s) && |s| > 0 && Leq(key, x, s[0])
    ensures forall j :: 0 <= j < |s| ==> Leq(key, x, s[j])
  {
    forall j | 0 < j < |s| ensures Leq(key, x, s[j]) {
      LeqTransitive(key, x, s[0], s[j]);
    }
  }

  /** Inserts x before the first element it may precede. */
  function Insert(key: SortKey, x: Product, s: seq<Product>): (r: seq<Product>)
    requires SortedBy(key, s)
    ensures multiset(r) == multiset(s) + multiset{x}
    ensures SortedBy(key, r)
    decreases |s|
  {
    if s == [] then [x]
    else if Leq(key, x, s[0]) then
      PrecedesAll(key, x, s);
      ConsSorted(key, x, s);
      [x] + s
    else
      InsertBehindHead(key, x, s);
      [s[0]] + Insert(key, x, s[1..])
  }

  /** When x may not precede the head, the head may precede x and the rest. */
  lemma InsertBehindHead(key: SortKey, x: Product, s: seq<Product>)
    requires SortedBy(key, s) && |s| > 0 && !Leq(key, x, s[0])
    ensures SortedBy(key, [s[0]] + Insert(key, x, s[1..]))
    ensures multiset([s[0]] + Insert(key, x, s[1..])) == multiset(s) + multiset{x}
    decreases |s|, 0
  {
    var tail := s[1..];
    var rest := Insert(key, x, tail);
    LeqTotal(key, x, s[0]);
    assert forall j :: 0 <= j < |tail| ==> Leq(key, s[0], tail[j]) by {
      forall j | 0 <= j < |tail| ensures Leq(key, s[0], tail[j]) {
        assert tail[j] == s[j + 1];
      }
    }
    BoundKeptByInsertion(key, s[0], x, tail, rest);
    ConsSorted(key, s[0], rest);
    assert s == [s[0]] + tail;
  }

  /** A product that may precede x and every element of s may precede every
      element of a rearrangement of s with x added. */
  lemma BoundKeptByInsertion(key: SortKey, h: Product, x: Product, s: seq<Product>, r: seq<Product>)
    requires Leq(key, h, x) && forall j :: 0 <= j < |s| ==> Leq(key, h, s[j])
    requires multiset(r) == multiset(s) + multiset{x}
    ensures forall j :: 0 <= j < |r| ==> Leq(key, h, r[j])
  {
    forall j | 0 <= j < |r| ensures Leq(key, h, r[j]) {
      assert r[j] in multiset(r);
      if r[j] != x {
        assert r[j] in multiset(s);
        var m :| 0 <= m < |s| && s[m] == r[j];
      }
    }
  }

  /** `[...products].sort(comparator)`: a new sorted sequence with the same
      elements. */
  function SortProducts(key: SortKey, ps: seq<Product>): (r: seq<Product>)
    ensures multiset(r) == multiset(ps)
    ensures SortedBy(key, r)
  {
    if ps == [] then []
    else
      assert ps == [ps[0]] + ps[1..];
      Insert(key, ps[0], SortProducts(key, ps[1..]))
  }

  predicate Ties(key: SortKey, a: Product, b: Product) {
    Leq(key, a, b) && Leq(key, b, a)
  }

  /** The products that compare equal to k, in their order in s. */
  function TiesWith(key: SortKey, s: seq<Product>, k: Product): seq<Product> {
    if s == [] then []
    else (if Ties(key, s[0], k) then [s[0]] else []) + TiesWith(key, s[1..], k)
  }

  lemma TiesCons(key: SortKey, y: Product, t: seq<Product>, k: Product)
    ensures TiesWith(key, [y] + t, k) == (if Ties(key, y, k) then [y] else []) + TiesWith(key, t, k)
  {
    assert ([y] + t)[1..] == t;
  }

  /** Two products tied with the same product are in order either way. */
  lemma TiesAreOrdered(key: SortKey, a: Product, b: Product, k: Product)
    ensures Ties(key, a, k) && Ties(key, b, k) ==> Leq(key, a, b)
  {
    if Ties(key, a, k) && Ties(key, b, k) {
      LeqTransitive(key, a, k, b);
    }
  }

  /** Putting a head that x may not precede in front keeps x's place among
      the products tied with k. */
  lemma TiesBehindHead(key: SortKey, x: Product, head: Product, rest: seq<Product>, tail: seq<Product>, k: Product)
    requires !Leq(key, x, head)
    requires TiesWith(key, rest, k) == (if Ties(key, x, k) then [x] else []) + TiesWith(key, tail, k)
    ensures TiesWith(key, [head] + rest, k)
         == (if Ties(key, x, k) then [x] else []) + TiesWith(key, [head] + tail, k)
  {
    TiesCons(key, head, rest, k);
    TiesCons(key, head, tail, k);
    TiesAreOrdered(key, x, head, k);
  }

  /** Inserting x puts it first among the products it ties with. */
  lemma {:induction false} InsertTies(key: SortKey, x: Product, s: seq<Product>, k: Product)
    requires SortedBy(key, s)
    ensures TiesWith(key, Insert(key, x, s), k)
         == (if Ties(key, x, k) then [x] else []) + TiesWith(key, s, k)
    decreases |s|
  {
    if s == [] {
      TiesCons(key, x, [], k);
    } else if Leq(key, x, s[0]) {
      TiesCons(key, x, s, k);
    } else {
      InsertTies(key, x, s[1..], k);
      TiesBehindHead(key, x, s[0], Insert(key, x, s[1..]), s[1..], k);
      assert [s[0]] + s[1..] == s;
    }
  }

  /** The sort is stable: products that compare equal keep their input order. */
  lemma {:induction false} SortIsStable(key: SortKey, ps: seq<Product>, k: Product)
    ensures TiesWith(key, SortProducts(key, ps), k) == TiesWith(key, ps, k)
    decreases |ps|
  {
    if ps != [] {
      SortIsStable(key, ps[1..], k);
      InsertTies(key, ps[0], SortProducts(key, ps[1..]), k);
    }
  }

  /** Two candles at 100 and 50 sorted by ascending price come out cheaper first. */
  lemma PriceAscendingExample(a: Product, b: Product)
    requires a.name == "Vela A" && a.price == 100 && b.name == "Vela B" && b.price == 50
    ensures SortProducts(PriceAscending, [a, b]) == [b, a]
  {
    assert [a, b][1..] == [b];
    assert SortProducts(PriceAscending, [b]) == [b];
  }

  // ---------------------------------------------------------------------
  // Pagination
  // ---------------------------------------------------------------------

  const PageSize := 12

  /** `Math.ceil(n / 12)`. */
  function TotalPages(n: nat): (r: nat)
    ensures r * PageSize >= n
    ensures r > 0 ==> (r - 1) * PageSize < n
  {
    (n + PageSize - 1) / PageSize
  }

  /** `list.slice((page - 1) * 12, page * 12)`, page being any integer: at
      most 12 items, all from the list. */
  function PageOf<T>(s: seq<T>, page: int): (r: seq<T>)
    ensures |r| <= PageSize
    ensures forall x :: x in r ==> x in s
  {
    Slice(s, (page - 1) * PageSize, page * PageSize)
  }

  function Min(a: int, b: int): int { if a <= b then a else b }

  /** A page from 1 on holds the items from (page − 1) · 12 to page · 12,
      cut at the end of the list, so never more than 12. */
  lemma PageBounds<T>(s: seq<T>, page: int)
    requires page >= 1
    ensures PageOf(s, page) == s[Min((page - 1) * PageSize, |s|)..Min(page * PageSize, |s|)]
    ensures |PageOf(s, page)| <= PageSize
  {
  }

  /** A page from 1 on has items exactly when it is not past the last page;
      page 0 is always empty. */
  lemma PageEmptyIff<T>(s: seq<T>, page: int)
    requires page >= 0
    ensures PageOf(s, page) != [] <==> 1 <= page <= TotalPages(|s|)
  {
  }

  /** A page number below 1 counts from the end of the list, as `slice` does
      with negative bounds: with 24 items page 0 is empty and page −1 shows
      the first 12. */
  lemma NegativePageCountsFromEnd<T>(s: seq<T>)
    requires |s| == 24
    ensures PageOf(s, 0) == [] && PageOf(s, -1) == s[..12]
  {
  }

  /** With 13 items there are two pages, and the second holds one item. */
  lemma ThirteenItems<T>(s: seq<T>)
    requires |s| == 13
    ensures TotalPages(|s|) == 2 && PageOf(s, 1) == s[..12] && PageOf(s, 2) == [s[12]]
  {
  }

  /** The first k pages laid end to end. */
  function FirstPages<T>(s: seq<T>, k: nat): seq<T> {
    if k == 0 then [] else FirstPages(s, k - 1) + PageOf(s, k)
  }

  /** The pages, laid end to end, give back the whole list. */
  lemma PagesCoverList<T>(s: seq<T>, k: nat)
    ensures FirstPages(s, k) == s[..Min(k * PageSize, |s|)]
    ensures FirstPages(s, TotalPages(|s|)) == s
  {
    PagesCoverPrefix(s, k);
    PagesCoverPrefix(s, TotalPages(|s|));
  }

  lemma {:induction false} PagesCoverPrefix<T>(s: seq<T>, k: nat)
    ensures FirstPages(s, k) == s[..Min(k * PageSize, |s|)]
  {
    if k > 0 {
      PagesCoverPrefix(s, k - 1);
      PageBounds(s, k);
      var a, b := Min((k - 1) * PageSize, |s|), Min(k * PageSize, |s|);
      assert s[..a] + s[a..b] == s[..b];
    }
  }

  /** The previous-page button: never below page 1. */
  function PrevPage(page: int): (r: int)
    ensures r >= 1
    ensures page > 1 ==> r == page - 1
    ensures page <= 1 ==> r == 1
  {
    if page - 1 >= 1 then page - 1 else 1
  }

  /** The next-page button: never past the last page. */
  function NextPage(page: int, totalPages: nat): (r: int)
    ensures r <= totalPages
    ensures page < totalPages ==> r == page + 1
    ensures page >= totalPages ==> r == totalPages
  {
    if page + 1 <= totalPages then page + 1 else totalPages
  }

  /** Both buttons keep a page that is in range in range, and → brings a
      page left past the end back to the last page. */
  lemma PageButtonsStayInRange(page: int, totalPages: nat)
    ensures 1 <= page <= totalPages ==> 1 <= PrevPage(page) <= totalPages
    ensures 1 <= page <= totalPages ==> 1 <= NextPage(page, totalPages) <= totalPages
    ensures page > totalPages ==> NextPage(page, totalPages) == totalPages
  {
  }

  // ---------------------------------------------------------------------
  // The whole pipeline
  // ---------------------------------------------------------------------

  /** filter, then sort, then cut out the current page. */
  function View(ps: seq<Product>, f: Filter, key: SortKey, page: int): seq<Product> {
    PageOf(SortProducts(key, FilterProducts(ps, f)), page)
  }

  /** Every product shown is a listed product that meets the filter, and a page
      shows at most 12 of them. */
  lemma ViewShowsOnlyMatches(ps: seq<Product>, f: Filter, key: SortKey, page: int)
    ensures forall p :: p in View(ps, f, key, page) ==> p in ps && Matches(p, f)
    ensures |View(ps, f, key, page)| <= PageSize
  {
    var sorted := SortProducts(key, FilterProducts(ps, f));
    var v := View(ps, f, key, page);
    forall p | p in v ensures p in ps && Matches(p, f) {
      assert p in sorted;
      assert p in multiset(sorted);
    }
  }

  /** A page number left over from a wider filter shows nothing: nothing puts
      the page back in range when the filter narrows. */
  lemma StalePageShowsNothing(ps: seq<Product>, f: Filter, key: SortKey, page: int)
    requires page > TotalPages(|FilterProducts(ps, f)|)
    ensures View(ps, f, key, page) == []
  {
    var filtered := FilterProducts(ps, f);
    assert |SortProducts(key, filtered)| == |filtered| by {
      assert |multiset(SortProducts(key, filtered))| == |multiset(filtered)|;
    }
    PageEmptyIff(SortProducts(key, filtered), page);
  }
}
