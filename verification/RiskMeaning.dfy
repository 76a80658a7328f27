/** What each factor of an assessment stands for, and what the score is in terms of the subtotal and the confidence. */
module RiskMeaning {
  import opened Risk

  function ClampedConfidence(c: real): real {
    if c < 0.0 then 0.0 else if c > 1.0 then 1.0 else c
  }

  /** The score is the whole number nearest to the subtotal times 0.6 to 1.0, by confidence, kept within 0 and 100. */
  lemma ScoreMeans(total: int, confidence: real) returns (n: int)
    ensures var exact := total as real * (0.6 + 0.4 * ClampedConfidence(confidence));
            && -0.5 <= n as real - exact <= 0.5
            && (n as real - exact == 0.5 || n as real - exact == -0.5 ==> n % 2 == 0)
    ensures Score(total, confidence) == if n < 0 then 0 else if n > 100 then 100 else n
  {
    n := Scaled(total, confidence);
    HalfEvenIsNearest(Times(total as real, Scale(confidence)));
    hide HalfEven;
  }

  // What scaling takes off a subtotal, which is never negative.
  function TakenOff(total: int, confidence: real): int {
    if Scaled(total, confidence) < total then total - Scaled(total, confidence) else 0
  }

  lemma AdjustmentIs(total: int, confidence: real)
    ensures Adjustment(total, confidence) == -TakenOff(total, confidence)
    ensures Scale(confidence) < 1.0 <==> confidence < 1.0
  {
    ScaleRange(confidence);
    ScaledIsNearer(total, confidence);
    hide Scaled;
  }

  lemma SumOfUpToTwo(fs: seq<Factor>)
    requires |fs| <= 2
    ensures Sum(fs) == (if |fs| > 0 then fs[0].weight else 0) + (if |fs| > 1 then fs[1].weight else 0)
  {
    if |fs| == 1 { assert fs[..0] == []; }
    if |fs| == 2 { assert fs[..1][..0] == []; }
  }

  /** A scaling factor is listed exactly for a confidence below 1 and never adds; a bounds factor exactly when what the
      others explain lies below 0 or above 100. Together they lead from the subtotal to the score. */
  lemma ExplanationMeans(total: int, confidence: real)
    ensures var extra, taken := Explanation(total, confidence), TakenOff(total, confidence);
            && (confidence < 1.0 <==> extra != [] && extra[0] == Factor("confidence-scaling", -taken))
            && |extra| == (if confidence < 1.0 then 1 else 0) + (if 0 <= total - taken <= 100 then 0 else 1)
            && (total - taken < 0 ==> extra[|extra| - 1] == Factor("bounds", taken - total))
            && (total - taken > 100 ==> extra[|extra| - 1] == Factor("bounds", 100 - (total - taken)))
            && Sum(extra) == Score(total, confidence) - total
  {
    AdjustmentIs(total, confidence);
    ScaledIsNearer(total, confidence);
    SumOfUpToTwo(Explanation(total, confidence));
    hide Scale, Scaled, Sum, Adjustment;
    assert "confidence-scaling"[0] == 'c' && "bounds"[0] == 'b';
  }

  /** Approval and ownership count under the combined basis only, each at most once: an unregistered or a registered finding
      when there is an inventory, a missing owner, and a server that an approved catalog does not list. */
  lemma GovernanceMeans(g: Governed, present: bool, p: Policy, id: string, w: int)
    ensures Factor(id, w) in GovernanceFactors(g, present, p) <==>
            && !p.danger && w != 0
            && (|| (id == "shadow" && present && g.shadow == Some(true) && w == p.shadow)
                || (id == "registered" && present && g.shadow == Some(false) && w == p.registered)
                || (id == "no-owner" && !g.owned && w == p.noOwner)
                || (id == "mcp-not-in-approved-registry" && g.missing.Some? && g.missing.value >= 1 && w == p.mcpNotApproved))
    ensures |GovernanceFactors(g, present, p)| ==
            (if present && g.shadow.Some? && !p.danger && (if g.shadow.value then p.shadow else p.registered) != 0 then 1 else 0)
            + (if !g.owned && !p.danger && p.noOwner != 0 then 1 else 0)
            + (if g.missing.Some? && g.missing.value >= 1 && !p.danger && p.mcpNotApproved != 0 then 1 else 0)
  {
  }
}
