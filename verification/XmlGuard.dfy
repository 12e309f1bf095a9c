/** Scanning an upload for forbidden XML declarations in chunks with a carried overlap. */
module XmlGuard {
  import opened Text

  const DOCTYPE := "<!DOCTYPE"
  const ENTITY := "<!ENTITY"

  /** How many bytes of each probe are carried into the next. */
  const OVERLAP := 16

  lemma UpperIdempotent(s: string)
    ensures Upper(Upper(s)) == Upper(s)
  {
  }

  lemma UpperConcat(a: string, b: string)
    ensures Upper(a + b) == Upper(a) + Upper(b)
  {
  }

  /** `s[-n:]` */
  function Tail(s: string, n: nat): string {
    if |s| <= n then s else s[|s| - n..]
  }

  /** `needle in s` */
  predicate Find(s: string, needle: string) {
    exists i :: 0 <= i <= |s| && OccursAt(s, needle, i)
  }

  lemma FindIsContains(s: string, needle: string)
    ensures Find(s, needle) <==> Contains(s, needle)
  {
    if Contains(s, needle) {
      var i: nat :| OccursAt(s, needle, i);
      assert 0 <= i <= |s|;
    }
  }

  ghost predicate Forbidden(s: string) {
    Contains(s, DOCTYPE) || Contains(s, ENTITY)
  }

  function Join(chunks: seq<string>): string {
    if chunks == [] then "" else Join(chunks[..|chunks| - 1]) + chunks[|chunks| - 1]
  }

  lemma OccursInSuffix(s: string, cut: nat, needle: string, i: nat)
    requires cut <= |s| && cut <= i && OccursAt(s, needle, i)
    ensures OccursAt(s[cut..], needle, i - cut)
  {
    assert s[cut..][i - cut..i - cut + |needle|] == s[i..i + |needle|];
  }

  lemma OccursInExtension(prefix: string, s: string, needle: string, i: nat)
    requires OccursAt(s, needle, i)
    ensures OccursAt(prefix + s, needle, |prefix| + i)
  {
    assert (prefix + s)[|prefix| + i..|prefix| + i + |needle|] == s[i..i + |needle|];
  }

  /** A pattern at most one longer than the overlap cannot straddle a chunk boundary unseen. */
  lemma OverlapSuffices(seen: string, chunk: string, needle: string, n: nat)
    requires |needle| <= n + 1
    ensures Contains(seen + chunk, needle) <==> Contains(seen, needle) || Contains(Tail(seen, n) + chunk, needle)
  {
    var whole := seen + chunk;
    var cut := |seen| - |Tail(seen, n)|;
    assert whole[cut..] == Tail(seen, n) + chunk && seen[..cut] + (Tail(seen, n) + chunk) == whole;
    if Contains(whole, needle) {
      var i: nat :| OccursAt(whole, needle, i);
      if i < cut {
        assert i + |needle| <= |seen|;
        assert whole[i..i + |needle|] == seen[i..i + |needle|];
        assert OccursAt(seen, needle, i);
      } else {
        OccursInSuffix(whole, cut, needle, i);
      }
    }
    if Contains(seen, needle) {
      var i: nat :| OccursAt(seen, needle, i);
      assert whole[i..i + |needle|] == seen[i..i + |needle|];
      assert OccursAt(whole, needle, i);
    }
    if Contains(Tail(seen, n) + chunk, needle) {
      var i: nat :| OccursAt(Tail(seen, n) + chunk, needle, i);
      OccursInExtension(seen[..cut], Tail(seen, n) + chunk, needle, i);
    }
  }

  lemma TailOfProbe(seen: string, chunk: string, n: nat)
    ensures Tail(seen + chunk, n) == Tail(Tail(seen, n) + chunk, n)
  {
  }

  lemma {:induction false} ForbiddenPrefix(chunks: seq<string>, k: nat)
    requires k <= |chunks| && Forbidden(Upper(Join(chunks[..k])))
    ensures Forbidden(Upper(Join(chunks)))
  {
    if k == |chunks| {
      assert chunks[..k] == chunks;
    } else {
      var n := |chunks| - 1;
      assert chunks[..n][..k] == chunks[..k];
      ForbiddenPrefix(chunks[..n], k);
      UpperConcat(Join(chunks[..n]), chunks[n]);
      OverlapSuffices(Upper(Join(chunks[..n])), Upper(chunks[n]), DOCTYPE, OVERLAP);
      OverlapSuffices(Upper(Join(chunks[..n])), Upper(chunks[n]), ENTITY, OVERLAP);
    }
  }

  /**
   Rejects exactly the inputs whose upper-cased bytes hold a forbidden declaration, for every way of
   cutting the input into non-empty reads.
   */
  method RejectUnsafeXml(chunks: seq<string>) returns (rejected: bool)
    requires forall i :: 0 <= i < |chunks| ==> chunks[i] != ""
    ensures rejected <==> Forbidden(Upper(Join(chunks)))
    ensures rejected <==> Contains(Upper(Join(chunks)), "<!DOCTYPE") || Contains(Upper(Join(chunks)), "<!ENTITY")
  {
    var overlap := "";
    for i := 0 to |chunks|
      invariant !Forbidden(Upper(Join(chunks[..i])))
      invariant overlap == Tail(Upper(Join(chunks[..i])), OVERLAP)
    {
      var chunk := chunks[i];
      var probe := Upper(overlap + chunk);
      ghost var seen := Upper(Join(chunks[..i]));
      assert chunks[..i + 1][..i] == chunks[..i];
      UpperConcat(Join(chunks[..i]), chunk);
      UpperConcat(overlap, chunk);
      TailIsUpper(Join(chunks[..i]));
      assert probe == Tail(seen, OVERLAP) + Upper(chunk);
      OverlapSuffices(seen, Upper(chunk), DOCTYPE, OVERLAP);
      OverlapSuffices(seen, Upper(chunk), ENTITY, OVERLAP);
      FindIsContains(probe, DOCTYPE);
      FindIsContains(probe, ENTITY);
      if Find(probe, DOCTYPE) || Find(probe, ENTITY) {
        ForbiddenPrefix(chunks, i + 1);
        return true;
      }
      TailOfProbe(seen, Upper(chunk), OVERLAP);
      overlap := Tail(probe, OVERLAP);
    }
    assert chunks[..|chunks|] == chunks;
    return false;
  }

  /** The carried bytes are already upper case. */
  lemma TailIsUpper(s: string)
    ensures Upper(Tail(Upper(s), OVERLAP)) == Tail(Upper(s), OVERLAP)
  {
    UpperIdempotent(s);
  }
}
