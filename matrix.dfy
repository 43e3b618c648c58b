/**
 * The build matrix: the two axes, the upstream source for each OS variant,
 * and `itertools.product` over the axes (OS variant outer, Python version inner).
 */
module Matrix {

  /** `Targets.os_variants` */
  const OsVariants: seq<string> := ["jammy", "slim-jammy"]

  /** `Targets.python_versions` */
  const PythonVersions: seq<string> := ["3.7", "3.8", "3.9", "3.10", "3.11-rc"]

  /** `Targets.source_for_variant`: the upstream docker-library directory each OS variant is derived from. */
  const SourceForVariant: map<string, string> := map["jammy" := "bullseye", "slim-jammy" := "slim-bullseye"]

  /** One (OS variant, Python version) pair. */
  type Key = (string, string)

  predicate Distinct<T(==)>(s: seq<T>)
  {
    forall a, b :: 0 <= a < b < |s| ==> s[a] != s[b]
  }

  /** `a` is a prefix of `b`. */
  predicate IsPrefix<T(==)>(a: seq<T>, b: seq<T>)
  {
    |a| <= |b| && b[..|a|] == a
  }

  /** The pairs `(x, y)` for every `y` of `ys`, in order. */
  function Row(x: string, ys: seq<string>): (r: seq<Key>)
    ensures |r| == |ys|
    ensures forall j :: 0 <= j < |ys| ==> r[j] == (x, ys[j])
  {
    seq(|ys|, j requires 0 <= j < |ys| => (x, ys[j]))
  }

  /** `itertools.product(xs, ys)`: one row per element of `xs`, rows in the order of `xs`; empty exactly when an axis is. */
  function Product(xs: seq<string>, ys: seq<string>): (r: seq<Key>)
    ensures r == [] <==> xs == [] || ys == []
    decreases |xs|
  {
    if xs == [] then [] else Product(xs[..|xs| - 1], ys) + Row(xs[|xs| - 1], ys)
  }

  lemma {:induction false} ProductLength(xs: seq<string>, ys: seq<string>)
    ensures |Product(xs, ys)| == |xs| * |ys|
    decreases |xs|
  {
    if xs != [] {
      ProductLength(xs[..|xs| - 1], ys);
      assert (|xs| - 1) * |ys| + |ys| == |xs| * |ys|;
    }
  }

  /** The pair at position `i * |ys| + j` is `(xs[i], ys[j])`: the first axis is the outer loop. */
  lemma {:induction false} ProductAt(xs: seq<string>, ys: seq<string>, i: int, j: int)
    requires 0 <= i < |xs| && 0 <= j < |ys|
    ensures 0 <= i * |ys| + j < |Product(xs, ys)|
    ensures Product(xs, ys)[i * |ys| + j] == (xs[i], ys[j])
    decreases |xs|
  {
    var init := xs[..|xs| - 1];
    ProductLength(xs, ys);
    ProductLength(init, ys);
    assert i * |ys| + j < |xs| * |ys| by {
      assert i * |ys| <= (|xs| - 1) * |ys|;
      assert (|xs| - 1) * |ys| + |ys| == |xs| * |ys|;
    }
    if i < |xs| - 1 {
      ProductAt(init, ys, i, j);
      assert init[i] == xs[i];
    } else {
      assert i * |ys| + j == |Product(init, ys)| + j;
    }
  }

  /** Every pair of the product takes its components from the two axes. */
  lemma {:induction false} ProductMembers(xs: seq<string>, ys: seq<string>)
    ensures forall n :: 0 <= n < |Product(xs, ys)| ==> Product(xs, ys)[n].0 in xs && Product(xs, ys)[n].1 in ys
    decreases |xs|
  {
    if xs != [] {
      var init := xs[..|xs| - 1];
      ProductMembers(init, ys);
      forall n | 0 <= n < |Product(xs, ys)|
        ensures Product(xs, ys)[n].0 in xs && Product(xs, ys)[n].1 in ys
      {
        if n < |Product(init, ys)| {
          assert Product(xs, ys)[n] == Product(init, ys)[n];
          assert Product(init, ys)[n].0 in init;
        } else {
          assert Product(xs, ys)[n] == Row(xs[|xs| - 1], ys)[n - |Product(init, ys)|];
        }
      }
    }
  }

  /** Over axes without repeated values the product repeats no pair. */
  lemma {:induction false} ProductDistinct(xs: seq<string>, ys: seq<string>)
    requires Distinct(xs) && Distinct(ys)
    ensures Distinct(Product(xs, ys))
    decreases |xs|
  {
    if xs != [] {
      var init := xs[..|xs| - 1];
      var x := xs[|xs| - 1];
      var p := Product(init, ys);
      ProductDistinct(init, ys);
      ProductMembers(init, ys);
      assert x !in init;
      forall a, b | 0 <= a < b < |Product(xs, ys)|
        ensures Product(xs, ys)[a] != Product(xs, ys)[b]
      {
        if b < |p| {
          assert Product(xs, ys)[a] == p[a] && Product(xs, ys)[b] == p[b];
        } else if a < |p| {
          assert Product(xs, ys)[a] == p[a];
          assert p[a].0 in init;
          assert Product(xs, ys)[b].0 == x;
        } else {
          assert Product(xs, ys)[a] == (x, ys[a - |p|]);
          assert Product(xs, ys)[b] == (x, ys[b - |p|]);
        }
      }
    }
  }

  /** Prefixes of the first axis give prefixes of the product. */
  lemma {:induction false} ProductPrefix(xs: seq<string>, ys: seq<string>, i: nat)
    requires i <= |xs|
    ensures IsPrefix(Product(xs[..i], ys), Product(xs, ys))
    decreases |xs| - i
  {
    if i < |xs| {
      var init := xs[..|xs| - 1];
      ProductPrefix(init, ys, i);
      assert init[..i] == xs[..i];
      var p := Product(xs[..i], ys);
      assert Product(xs, ys)[..|p|] == Product(init, ys)[..|p|];
    } else {
      assert xs[..i] == xs;
    }
  }

  /** The product over `xs[..i + 1]` extends the one over `xs[..i]` by the row of `xs[i]`. */
  lemma ProductStep(xs: seq<string>, ys: seq<string>, i: nat)
    requires i < |xs|
    ensures Product(xs[..i + 1], ys) == Product(xs[..i], ys) + Row(xs[i], ys)
  {
    assert xs[..i + 1][..i] == xs[..i];
  }

  /** Extending the partial row of `xs[i]` by one more Python version. */
  lemma RowStep(x: string, ys: seq<string>, j: nat)
    requires j < |ys|
    ensures Row(x, ys[..j + 1]) == Row(x, ys[..j]) + [(x, ys[j])]
  {
  }

  /** The matrix axes repeat no value, so the ten keys are pairwise distinct. */
  lemma MatrixKeysDistinct()
    ensures |Product(OsVariants, PythonVersions)| == 10
    ensures Distinct(Product(OsVariants, PythonVersions))
  {
    ProductLength(OsVariants, PythonVersions);
    ProductDistinct(OsVariants, PythonVersions);
  }

  /** The ten keys in the order the emitters visit them: all Python versions of "jammy", then of "slim-jammy". */
  lemma MatrixKeys()
    ensures Product(OsVariants, PythonVersions) ==
      [("jammy", "3.7"), ("jammy", "3.8"), ("jammy", "3.9"), ("jammy", "3.10"), ("jammy", "3.11-rc"),
       ("slim-jammy", "3.7"), ("slim-jammy", "3.8"), ("slim-jammy", "3.9"), ("slim-jammy", "3.10"),
       ("slim-jammy", "3.11-rc")]
  {
    assert OsVariants[..1] == ["jammy"];
    assert Product(OsVariants[..1][..0], PythonVersions) == [];
    assert Product(OsVariants, PythonVersions) == Product(OsVariants[..1], PythonVersions) + Row("slim-jammy", PythonVersions);
  }
}
