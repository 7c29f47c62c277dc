/** What the scrapers see of the network: the outcome of `fetchHtml(url)`
    (the page, or a thrown error for a failed request or a non-OK status)
    and the paginated URL scheme both sites use. */
module Web {
  import opened Text

  datatype Fetched<P> = Ok(page: P) | Err

  /** Page `i` of a listing: the bare URL for page 1, `?page=i` after it. */
  function PageUrl(base: string, i: nat): (u: string)
    ensures i <= 1 ==> u == base
    ensures i > 1 ==> u == base + "?page=" + NatToString(i)
  {
    if i <= 1 then base else base + "?page=" + NatToString(i)
  }

  /** Distinct page numbers (from 1) give distinct URLs. */
  lemma PageUrlInjective(base: string, i: nat, j: nat)
    requires 1 <= i && 1 <= j && PageUrl(base, i) == PageUrl(base, j)
    ensures i == j
  {
    if i > 1 && j > 1 {
      var p := base + "?page=";
      assert PageUrl(base, i)[|p|..] == NatToString(i);
      assert PageUrl(base, j)[|p|..] == NatToString(j);
      NatToStringInjective(i, j);
    }
  }
}
