/** What both exports should say of a tunnel, in terms of its fields. */
module ExportFields {
  import opened Sequences
  import opened Text
  import opened Model
  import opened ExportJson

  predicate HasPort(kind: string) { Lower(kind) == "tcp" || Lower(kind) == "udp" }

  predicate HasDomains(kind: string) { Lower(kind) == "http" || Lower(kind) == "https" || Lower(kind) == "tcpmux" }

  predicate HasSecret(kind: string) { Lower(kind) == "stcp" || Lower(kind) == "xtcp" || Lower(kind) == "sudp" }

  lemma KindsAre(kind: string)
    ensures IsPortKind(kind) <==> HasPort(kind)
    ensures IsDomainKind(kind) <==> HasDomains(kind)
    ensures IsSecretKind(kind) <==> HasSecret(kind)
  {
  }

  /** The three groups of tunnel types do not overlap. */
  lemma KindsDiffer(kind: string)
    ensures HasPort(kind) ==> !HasDomains(kind) && !HasSecret(kind)
    ensures HasDomains(kind) ==> !HasSecret(kind)
  {
    var k := Lower(kind);
    if HasPort(kind) {
      assert |k| == 3 && (k[1] == 'c' || k[1] == 'd');
    }
    if HasDomains(kind) {
      assert k[0] == 'h' || |k| == 6;
    }
    if HasSecret(kind) {
      assert |k| == 4 && (k[0] == 's' || k[0] == 'x');
    }
  }

  /** The address of the service itself; none means this machine. */
  function LocalAddress(t: Tunnel): string {
    if Trim(t.localIP) == "" then "127.0.0.1" else t.localIP
  }

  // ---------- lists ----------

  /** The items, trimmed, in their order, without the blank ones. */
  ghost predicate AreTrimmed(out: seq<string>, items: seq<string>) {
    exists ps: seq<nat> :: TrimmedAt(out, items, ps)
  }

  /** Those at the positions `ps`. */
  ghost predicate TrimmedAt(out: seq<string>, items: seq<string>, ps: seq<nat>) {
    && Positions(ps, |items|) && |out| == |ps|
    && (forall k | 0 <= k < |ps| :: out[k] == Trim(items[ps[k]]) != "")
    && (forall i | 0 <= i < |items| && Trim(items[i]) != "" :: i in ps)
  }

  lemma {:induction false} CleanedAt(items: seq<string>) returns (ps: seq<nat>)
    ensures TrimmedAt(Cleaned(items), items, ps)
  {
    ps := [];
    if items != [] {
      var n := |items| - 1;
      ps := CleanedAt(items[..n]);
      assert items == items[..n] + [items[n]];
      OneMoreTrimmed(Cleaned(items[..n]), items[..n], ps, items[n]);
      if Trim(items[n]) != "" {
        ps := ps + [n];
      }
    }
  }

  lemma OneMoreTrimmed(out: seq<string>, items: seq<string>, ps: seq<nat>, item: string)
    requires TrimmedAt(out, items, ps)
    ensures if Trim(item) != "" then TrimmedAt(out + [Trim(item)], items + [item], ps + [|items|])
            else TrimmedAt(out, items + [item], ps)
  {
    var n, all := |items|, items + [item];
    OneMorePosition(ps, n);
    forall i | 0 <= i < |all| && Trim(all[i]) != "" ensures i in ps + [n] && (i < n ==> i in ps) {
      if i < n { assert all[i] == items[i]; } else { assert (ps + [n])[|ps|] == n; }
    }
  }

  lemma CleanedAreTrimmed(items: seq<string>)
    ensures AreTrimmed(Cleaned(items), items)
  {
    var ps := CleanedAt(items);
  }

  /** Trimming again changes nothing. */
  lemma {:induction false} CleanedTwice(items: seq<string>)
    ensures Cleaned(Cleaned(items)) == Cleaned(items)
  {
    if items != [] {
      var front, s := Cleaned(items[..|items| - 1]), Trim(items[|items| - 1]);
      CleanedTwice(items[..|items| - 1]);
      TrimIdempotent(items[|items| - 1]);
      CleanedGrows(front, s);
      assert Cleaned(items) == if s != "" then front + [s] else front;
    }
  }

  lemma CleanedGrows(items: seq<string>, item: string)
    ensures Cleaned(items + [item]) == Cleaned(items) + if Trim(item) != "" then [Trim(item)] else []
  {
    assert (items + [item])[..|items|] == items;
  }
}
