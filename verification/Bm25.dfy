// The BM25 term-frequency norm the engine scores and bounds with, over the reals.
module Bm25 {

  const K1: real := 1.2
  const B: real := 0.75

  // Field-length normalisation; an average of zero (no .len file) switches it off.
  function LenFactor(dl: nat, avgdl: real): (f: real)
    ensures avgdl >= 0.0 ==> f >= 0.25
  {
    if avgdl > 0.0 then
      assert dl as real / avgdl >= 0.0;
      1.0 - B + B * (dl as real / avgdl)
    else 1.0
  }

  function TfNorm(tf: nat, lenFactor: real): (r: real)
    requires lenFactor > 0.0
    ensures 0.0 <= r
  {
    tf as real * (K1 + 1.0) / (tf as real + K1 * lenFactor)
  }

  // The BM25 norm with k1 = 1.2 and b = 0.75, multiplied out; without an
  // average the length plays no part.
  lemma NormIs(tf: nat, dl: nat, avgdl: real)
    requires avgdl >= 0.0
    ensures avgdl > 0.0 ==>
              TfNorm(tf, LenFactor(dl, avgdl)) * (tf as real + 0.3 + 0.9 * (dl as real / avgdl)) == 2.2 * tf as real
    ensures avgdl == 0.0 ==> TfNorm(tf, LenFactor(dl, avgdl)) * (tf as real + 1.2) == 2.2 * tf as real
  {
    var down := tf as real + K1 * LenFactor(dl, avgdl);
    QuotientBack(tf as real * (K1 + 1.0), down);
    if avgdl > 0.0 {
      var q := dl as real / avgdl;
      assert down == tf as real + 0.3 + 0.9 * q;
    }
  }

  lemma QuotientBack(a: real, b: real)
    requires b > 0.0
    ensures a / b * b == a
  {
  }

  lemma QuotientLe(a: real, b: real, c: real, d: real)
    requires b > 0.0 && d > 0.0
    ensures a * d <= c * b <==> a / b <= c / d
  {
  }

  lemma TimesLe(x: real, y: real, z: real)
    requires x <= y && z >= 0.0
    ensures x * z <= y * z
  {
  }

  lemma ProductOk(a: real, b: real)
    requires a >= 0.0 && b >= 0.0
    ensures a * b >= 0.0
  {
  }

  lemma TimesLt(x: real, y: real, z: real)
    requires x < y && z > 0.0
    ensures x * z < y * z
  {
  }

  // One norm is at most another exactly when frequency over length factor is.
  lemma NormLe(tf: nat, lf: real, tf': nat, lf': real)
    requires lf > 0.0 && lf' > 0.0
    ensures TfNorm(tf, lf) <= TfNorm(tf', lf') <==> tf as real * lf' <= tf' as real * lf
  {
    var x, y := tf as real, tf' as real;
    QuotientLe(x * (K1 + 1.0), x + K1 * lf, y * (K1 + 1.0), y + K1 * lf');
    assert x * (K1 + 1.0) * (y + K1 * lf') == 2.2 * (x * y) + 2.64 * (x * lf');
    assert y * (K1 + 1.0) * (x + K1 * lf) == 2.2 * (x * y) + 2.64 * (y * lf);
  }

  // More occurrences in a shorter field never score less.
  lemma NormMonotone(tf: nat, lf: real, tf': nat, lf': real)
    requires tf <= tf' && 0.0 < lf' <= lf
    ensures TfNorm(tf, lf) <= TfNorm(tf', lf')
  {
    hide TfNorm;
    NormLe(tf, lf, tf', lf');
    TimesLe(lf', lf, tf as real);
    TimesLe(tf as real, tf' as real, lf);
    assert lf' * tf as real == tf as real * lf' && lf * tf as real == tf as real * lf;
  }

  // With the same occurrences, the norms order as the length factors do, reversed.
  lemma NormOrder(tf: nat, lf: real, lf': real)
    requires tf >= 1 && lf > 0.0 && lf' > 0.0
    ensures TfNorm(tf, lf) <= TfNorm(tf, lf') <==> lf' <= lf
  {
    NormLe(tf, lf, tf, lf');
    if lf' <= lf {
      TimesLe(lf', lf, tf as real);
    } else {
      TimesLt(lf, lf', tf as real);
    }
  }

  // Longer fields have larger factors.
  lemma FactorOrder(dl: nat, dl': nat, avgdl: real)
    requires avgdl > 0.0
    ensures LenFactor(dl, avgdl) <= LenFactor(dl', avgdl) <==> dl <= dl'
  {
  }

  // A larger average makes every field count as shorter.
  lemma AverageOrder(dl: nat, avgdl: real, avgdl': real)
    requires dl >= 1 && avgdl > 0.0 && avgdl' > 0.0
    ensures LenFactor(dl, avgdl) <= LenFactor(dl, avgdl') <==> avgdl' <= avgdl
  {
    QuotientLe(dl as real, avgdl, dl as real, avgdl');
    if avgdl' <= avgdl {
      TimesLe(avgdl', avgdl, dl as real);
    } else {
      TimesLt(avgdl, avgdl', dl as real);
    }
  }
}
