/** The Product model (src/models/Product.js): variants, schema validation and the slug hook. */
module Products {
  import opened Text

  datatype Variant = Variant(id: nat, sku: string, name: string, price: int, inventory: int)

  datatype Product = Product(
    id: nat,
    name: string,
    slug: string,
    variants: seq<Variant>,
    basePrice: int,
    soldCount: int,
    isActive: bool)

  const MinVariants: nat := 2

  predicate VariantValid(v: Variant) {
    v.price >= 0 && v.inventory >= 0
  }

  /** What `save()` accepts: at least two variants and no negative price or stock. */
  predicate ProductValid(p: Product) {
    && |p.variants| >= MinVariants
    && p.basePrice >= 0
    && forall i :: 0 <= i < |p.variants| ==> VariantValid(p.variants[i])
  }

  /** One schema violation, as Mongoose's ValidationError lists them by path. */
  datatype SchemaError =
    | TooFewVariants
    | NegativeBasePrice
    | NegativeVariantPrice(index: nat)
    | NegativeInventory(index: nat)

  /** The violations of the variants from index `from` on. */
  function VariantErrors(vs: seq<Variant>, from: nat): (errs: seq<SchemaError>)
    requires from <= |vs|
    ensures |errs| == 0 <==> forall i :: from <= i < |vs| ==> VariantValid(vs[i])
    ensures forall e :: e in errs ==> (e.NegativeVariantPrice? || e.NegativeInventory?) && e.index >= from
    ensures forall i :: from <= i < |vs| ==>
      (NegativeInventory(i) in errs <==> vs[i].inventory < 0)
    decreases |vs| - from
  {
    if from == |vs| then []
    else
      var v := vs[from];
      (if v.price < 0 then [NegativeVariantPrice(from)] else [])
      + (if v.inventory < 0 then [NegativeInventory(from)] else [])
      + VariantErrors(vs, from + 1)
  }

  /** The document validation `save()` runs: empty exactly when the product is valid. */
  function Validate(p: Product): (errs: seq<SchemaError>)
    ensures |errs| == 0 <==> ProductValid(p)
    ensures TooFewVariants in errs <==> |p.variants| < MinVariants
    ensures NegativeBasePrice in errs <==> p.basePrice < 0
  {
    (if |p.variants| < MinVariants then [TooFewVariants] else [])
    + (if p.basePrice < 0 then [NegativeBasePrice] else [])
    + VariantErrors(p.variants, 0)
  }

  /** Index of the product with id `id` (`Product.findById`); `|ps|` when there is none. */
  function FindProduct(ps: seq<Product>, id: nat): (r: nat)
    ensures r <= |ps|
    ensures r < |ps| ==> ps[r].id == id
    ensures forall j :: 0 <= j < r ==> ps[j].id != id
  {
    if |ps| == 0 then 0
    else if ps[0].id == id then 0
    else 1 + FindProduct(ps[1..], id)
  }

  /** Index of the variant with id `id` (`product.variants.id(id)`); `|vs|` when there is none. */
  function FindVariant(vs: seq<Variant>, id: nat): (r: nat)
    ensures r <= |vs|
    ensures r < |vs| ==> vs[r].id == id
    ensures forall j :: 0 <= j < r ==> vs[j].id != id
  {
    if |vs| == 0 then 0
    else if vs[0].id == id then 0
    else 1 + FindVariant(vs[1..], id)
  }

  // ---------------------------------------------------------------------
  // Slug: name.toLowerCase().replace(/[^a-z0-9]+/g, '-').replace(/(^-|-$)/g, '')
  // ---------------------------------------------------------------------

  /** A character the first replacement keeps: `[a-z0-9]`. */
  predicate IsSlugAlnum(c: char) { IsLower(c) || IsDigit(c) }

  predicate IsSlugChar(c: char) { IsSlugAlnum(c) || c == '-' }

  /** The shape every slug has: `[a-z0-9-]` only, no `--`, no hyphen at either end. */
  predicate WellFormedSlug(s: string) {
    && (forall i :: 0 <= i < |s| ==> IsSlugChar(s[i]))
    && (forall i :: 0 <= i < |s| - 1 ==> !(s[i] == '-' && s[i + 1] == '-'))
    && (|s| > 0 ==> s[0] != '-' && s[|s| - 1] != '-')
  }

  /** The characters of `[a-z0-9]` in a string, in order. */
  function Alnums(s: string): (r: string)
    ensures |r| <= |s|
    ensures forall i :: 0 <= i < |r| ==> IsSlugAlnum(r[i])
  {
    if |s| == 0 then "" else (if IsSlugAlnum(s[0]) then [s[0]] else "") + Alnums(s[1..])
  }

  /** Filtering distributes over concatenation. */
  lemma {:induction false} AlnumsConcat(a: string, b: string)
    ensures Alnums(a + b) == Alnums(a) + Alnums(b)
    decreases |a|
  {
    if |a| > 0 {
      assert (a + b)[1..] == a[1..] + b;
      AlnumsConcat(a[1..], b);
    } else {
      assert a + b == b;
    }
  }

  /** Drops the leading run of characters outside `[a-z0-9]`. */
  function DropRun(s: string): (r: string)
    ensures |r| <= |s|
    ensures |r| > 0 ==> IsSlugAlnum(r[0])
    ensures |s| > 0 && IsSlugAlnum(s[0]) ==> r == s
  {
    if |s| == 0 || IsSlugAlnum(s[0]) then s else DropRun(s[1..])
  }

  /** Dropping a run of outside characters loses no letter or digit. */
  lemma {:induction false} DropRunKeepsAlnums(s: string)
    ensures Alnums(DropRun(s)) == Alnums(s)
    decreases |s|
  {
    if |s| > 0 && !IsSlugAlnum(s[0]) {
      DropRunKeepsAlnums(s[1..]);
    }
  }

  /** `.replace(/[^a-z0-9]+/g, '-')`: every maximal run outside `[a-z0-9]` becomes one hyphen. */
  function CollapseRuns(s: string): (r: string)
    ensures forall i :: 0 <= i < |r| ==> IsSlugChar(r[i])
    ensures forall i :: 0 <= i < |r| - 1 ==> !(r[i] == '-' && r[i + 1] == '-')
    ensures |r| > 0 <==> |s| > 0
    ensures |r| > 0 ==> (r[0] == '-' <==> !IsSlugAlnum(s[0]))
    ensures Alnums(r) == Alnums(s)
    decreases |s|
  {
    if |s| == 0 then ""
    else if IsSlugAlnum(s[0]) then
      var rest := CollapseRuns(s[1..]);
      assert ([s[0]] + rest)[1..] == rest;
      [s[0]] + rest
    else
      var rest := CollapseRuns(DropRun(s[1..]));
      DropRunKeepsAlnums(s[1..]);
      assert ("-" + rest)[1..] == rest;
      "-" + rest
  }

  /**
   * The replacement read one character at a time: a character of `[a-z0-9]`
   * is kept, the first character of a run of others becomes a hyphen, and
   * the rest of the run is dropped. `inRun` says the previous character was
   * outside `[a-z0-9]`.
   */
  function MarkRuns(s: string, inRun: bool): string
    decreases |s|
  {
    if |s| == 0 then ""
    else if IsSlugAlnum(s[0]) then [s[0]] + MarkRuns(s[1..], false)
    else if inRun then MarkRuns(s[1..], true)
    else "-" + MarkRuns(s[1..], true)
  }

  /** Inside a run, reading on is the same as skipping the rest of the run. */
  lemma {:induction false} MarkRunsSkipsRun(s: string)
    ensures MarkRuns(s, true) == MarkRuns(DropRun(s), false)
    decreases |s|
  {
    if |s| > 0 && !IsSlugAlnum(s[0]) {
      MarkRunsSkipsRun(s[1..]);
    }
  }

  /** The run replacement is the character-by-character reading: one hyphen at the start of each maximal run. */
  lemma {:induction false} CollapseRunsMarks(s: string)
    ensures CollapseRuns(s) == MarkRuns(s, false)
    decreases |s|
  {
    if |s| > 0 {
      if IsSlugAlnum(s[0]) {
        CollapseRunsMarks(s[1..]);
      } else {
        CollapseRunsMarks(DropRun(s[1..]));
        MarkRunsSkipsRun(s[1..]);
      }
    }
  }

  /** `.replace(/(^-|-$)/g, '')`: one hyphen off the front and one off the back. */
  function TrimHyphens(s: string): (r: string)
    ensures Alnums(r) == Alnums(s)
  {
    var a := if |s| > 0 && s[0] == '-' then s[1..] else s;
    assert Alnums(a) == Alnums(s) by {
      if |s| > 0 && s[0] == '-' {
        assert s == "-" + a;
        AlnumsConcat("-", a);
      }
    }
    if |a| > 0 && a[|a| - 1] == '-' then
      assert a == a[..|a| - 1] + "-";
      AlnumsConcat(a[..|a| - 1], "-");
      a[..|a| - 1]
    else a
  }

  /** The slug the pre-save hook derives from a product name (ASCII case mapping only). */
  function Slugify(name: string): (slug: string)
    ensures WellFormedSlug(slug)
    ensures Alnums(slug) == Alnums(ToLower(name))
  {
    var c := CollapseRuns(ToLower(name));
    var a := if |c| > 0 && c[0] == '-' then c[1..] else c;
    assert forall i :: 0 <= i < |a| - 1 ==> !(a[i] == '-' && a[i + 1] == '-');
    assert |a| > 0 ==> a[0] != '-';
    TrimHyphens(c)
  }

  /** A well-formed slug has no uppercase letter, so lowering it changes nothing. */
  lemma LowerKeepsSlug(s: string)
    requires WellFormedSlug(s)
    ensures ToLower(s) == s
  {
  }

  /** Without `--` and outside characters, every run is already a single hyphen. */
  lemma {:induction false} CollapseKeepsSlugChars(s: string)
    requires forall i :: 0 <= i < |s| ==> IsSlugChar(s[i])
    requires forall i :: 0 <= i < |s| - 1 ==> !(s[i] == '-' && s[i + 1] == '-')
    ensures CollapseRuns(s) == s
    decreases |s|
  {
    if |s| > 0 {
      var t := s[1..];
      assert forall i :: 0 <= i < |t| ==> t[i] == s[i + 1];
      CollapseKeepsSlugChars(t);
      if !IsSlugAlnum(s[0]) {
        if |t| > 0 {
          assert s[1] != '-';
          assert DropRun(t) == t;
        }
      }
      assert s == [s[0]] + t;
    }
  }

  /** A slug has no hyphen at either end to trim. */
  lemma TrimKeepsSlug(s: string)
    requires WellFormedSlug(s)
    ensures TrimHyphens(s) == s
  {
  }

  /** The slug transform is idempotent: a slug is its own slug. */
  lemma SlugifyIdempotent(name: string)
    ensures Slugify(Slugify(name)) == Slugify(name)
  {
    var s := Slugify(name);
    LowerKeepsSlug(s);
    CollapseKeepsSlugChars(s);
    TrimKeepsSlug(s);
    assert Slugify(s) == TrimHyphens(CollapseRuns(ToLower(s)));
  }

  /**
   * The pre-save hook: the slug is recomputed from the name exactly when the
   * name was modified; nothing else is touched.
   */
  function PreSave(p: Product, nameModified: bool): (q: Product)
    ensures nameModified ==> q.slug == Slugify(p.name) && WellFormedSlug(q.slug)
    ensures !nameModified ==> q == p
    ensures q.(slug := p.slug) == p
  {
    if nameModified then p.(slug := Slugify(p.name)) else p
  }
}
