/** When exactly a shop's host is taken, refused, proved and dropped. */
module DomainLaws {
  import opened Results
  import opened StoreDomains

  /**
   A host is taken exactly when it is a usable domain, not the panel's, and no other admin requested it or is
   live on it. A new one starts unproved with a new token, and takes the shop down; the same one
   changes nothing.
   */
  lemma SetIff(d: Domains, panel: string, a: Id, host: string, token: string)
    ensures var (next, r) := Set(d, panel, a, host, token);
      var same := a in d.book && d.book[a].host == host;
      && (r == Ok <==> (&& host != "" && host != panel
                        && (forall b :: b in d.brands && b != a ==> d.brands[b] != Some(host))
                        && (forall b :: b in d.book && b != a ==> d.book[b].host != host)))
      && (r != Ok || same ==> next == d)
      && (r == Ok && !same ==>
            && next.book == d.book[a := Record(host, token, false)]
            && next.brands == if a in d.brands then d.brands[a := None] else d.brands)
  {
  }

  /** Removing a host drops the request and takes the shop down. */
  lemma RemoveIs(d: Domains, a: Id)
    ensures Remove(d, a).book == d.book - {a}
    ensures Remove(d, a).brands == if a in d.brands then d.brands[a := None] else d.brands
  {
  }

  /** A requested host is proved exactly when one of the two probes answers with the admin's own token. */
  lemma VerifyIff(d: Domains, a: Id, answers: Answers)
    ensures var (next, r) := Verify(d, a, answers);
      var proved := a in d.book && d.book[a].token != ""
        && (answers.https == d.book[a].token || answers.http == d.book[a].token);
      && (r == Ok <==> a in d.book) && (!proved ==> next == d)
      && (proved ==> next.brands == d.brands[a := Some(d.book[a].host)]
                     && next.book == d.book[a := d.book[a].(verified := true)])
  {
  }

  /** The token was answered by a probe of this admin's host, at some verification of the run. */
  ghost predicate Answered(run: seq<Step>, a: Id, token: string) {
    exists i :: 0 <= i < |run| && AnsweredAt(run, i, a, token)
  }

  ghost predicate AnsweredAt(run: seq<Step>, i: int, a: Id, token: string) {
    && 0 <= i < |run| && run[i].VerifyStep? && run[i].admin == a && token != ""
    && (run[i].answers.https == token || run[i].answers.http == token)
  }

  /** No shop is live on a host without a probe that answered with its admin's present token. */
  lemma LiveWasAnswered(panel: string, run: seq<Step>, a: Id)
    requires Live(Run(panel, run), a).Some?
    ensures var d := Run(panel, run);
      a in d.book && d.book[a].host == Live(d, a).value && Answered(run, a, d.book[a].token)
  {
    LiveWasProved(panel, run, a);
    var token := Run(panel, run).book[a].token;
    var i :| 0 <= i < |run| && run[i].VerifyStep? && run[i].admin == a && Passes(token, run[i].answers);
    assert AnsweredAt(run, i, a, token);
  }
}
