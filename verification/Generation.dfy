/** How a context window is divided between input, output reserve and safety margin. */
module Generation {
  import opened Wrappers

  datatype Plan = Plan(window: int, reserve: int, safety: int, usable: int, explicit: Option<int>)

  datatype BudgetResult = Planned(plan: Plan) | NonPositiveReserve | ExceedsProfile

  /** A positive reserve that leaves room for input, or a refusal. */
  function GenerationBudget(window: int, configured: int, requested: Option<int>, margin: int): (r: BudgetResult)
    ensures r.Planned? ==>
      && r.plan.usable >= 1 && r.plan.reserve >= 1 && r.plan.safety >= 0
      && r.plan.usable + r.plan.reserve + r.plan.safety == window == r.plan.window
      && r.plan.explicit == requested && (requested.Some? ==> r.plan.reserve == requested.value)
    ensures r.Planned? <==> requested.GetOr(configured) > 0 && requested.GetOr(configured) + (if margin > 0 then margin else 0) < window
    ensures r.NonPositiveReserve? <==> requested.GetOr(configured) <= 0
  {
    var reserve := requested.GetOr(configured);
    var safety := if margin > 0 then margin else 0;
    if reserve <= 0 then NonPositiveReserve
    else if reserve + safety >= window then ExceedsProfile
    else Planned(Plan(window, reserve, safety, window - reserve - safety, requested))
  }

  function Min(a: int, b: int): int {
    if a <= b then a else b
  }

  /** What may still be generated after `input` tokens; `None` where the source raises. */
  function GenerationCeiling(plan: Plan, input: int): Option<int> {
    var remaining := plan.window - input - plan.safety;
    if remaining <= 0 then None
    else if plan.explicit.Some? && plan.explicit.value != 0 then Some(Min(remaining, plan.explicit.value))
    else Some(remaining)
  }

  /** The limit as a stored projection computes it again from its own fields. */
  function GenerationLimit(plan: Plan, tokens: int): int {
    var remaining := plan.window - tokens - plan.safety;
    if plan.explicit.Some? then Min(remaining, plan.explicit.value) else remaining
  }

  /** The limit an accepted input leaves: exactly the requested output, or all that
      remains, which is at least the reserve. */
  ghost predicate Allots(plan: Plan, tokens: int, limit: int) {
    && tokens + limit + plan.safety <= plan.window && limit > 0
    && (match plan.explicit
        case Some(requested) => limit == requested
        case None => limit == plan.window - tokens - plan.safety && limit >= plan.reserve)
  }

  /** An input that fits the usable part never exhausts the window, and the ceiling that
      was computed and the limit that is recomputed agree.  The first input that does not
      fit already loses part of the requested output. */
  lemma CeilingAllots(window: int, configured: int, requested: Option<int>, margin: int, tokens: int)
    requires GenerationBudget(window, configured, requested, margin).Planned?
    ensures
      var plan := GenerationBudget(window, configured, requested, margin).plan;
      && (tokens <= plan.usable ==>
            && GenerationCeiling(plan, tokens).Some?
            && GenerationCeiling(plan, tokens).value == GenerationLimit(plan, tokens)
            && Allots(plan, tokens, GenerationLimit(plan, tokens)))
      && (requested.Some? ==> (GenerationCeiling(plan, tokens) == Some(requested.value) <==> tokens <= plan.usable))
  {
  }
}
