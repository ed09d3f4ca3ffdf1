/** What the build with parent links makes of printed values. */
module JsonLinkedRoundTrip {
  import opened JsonLex
  import opened JsonRun
  import opened JsonPrinter
  import opened JsonRoundTrip
  import opened JsonLaminar
  import opened JsonLinks

  /** The build with parent links undoes printing as well. */
  lemma LinkedParseUndoesPrint(lead: string, v: Value, trail: string, cap: nat)
    requires Legal(v) && Blanks(lead) && Blanks(trail) && cap >= Count(v)
    ensures var js := lead + Print(v) + trail;
      Forget(LinkedRun(js, |js|, Linked(Init, []), cap)) == Complete(State(|js|, -1, false, Tokens(v, |lead|, 0, -1)))
  {
    hide Run, Print, LinkedRun, NoStray, Laminar;
    var js := lead + Print(v) + trail;
    ParseUndoesPrint(lead, v, trail, cap);
    InitLaminar();
    CompleteWithoutStray(js, |js|, Init, cap);
    BuildsAgreeFromStart(js, |js|, cap);
  }

  lemma InitLaminar()
    ensures Laminar(Init) && SceneOf(Init) == Scene([], 0)
  {
  }
}
