// scripts/create-option-prices.ts: each product's Stripe Price, found or created
// under its lookup key. Stripe is a map from lookup keys to Prices, and any call
// to it may fail: a create before it takes effect, or after.
module OptionPrices {
  import opened Wrappers
  import opened Collections
  import opened Products

  datatype Price = Price(
    id: string, active: bool, kind: string, unitAmount: Option<int>, currency: string, livemode: bool)

  datatype NewPrice = NewPrice(lookupKey: string, unitAmount: nat, currency: string)

  datatype Why = LiveMode | Archived | NotOneTime | OtherCurrency | OtherAmount

  datatype Decision = Create | Reuse(id: string) | Refuse(why: Why)

  // How Stripe answers: `made` is None when a create fails without an effect.
  datatype Made = Made(id: string, livemode: bool, replyArrives: bool)
  datatype Turn = Turn(findAnswers: bool, made: Option<Made>)

  // `created` lists the lookup keys of every create that took effect.
  datatype Store = Store(prices: map<string, Price>, created: seq<string>)

  datatype Verdict = Created(id: string) | Kept(id: string) | Refused(why: Why) | WouldCreate

  datatype Options = Options(currency: string, dryRun: bool)

  datatype Progress = Progress(
    store: Store, lines: seq<(string, string)>, report: seq<Verdict>, refused: nat, stopped: bool)

  function LookupKeyFor(code: string): string {
    "letter-irl-" + code
  }

  function Decide(p: Jit, currency: string, existing: Option<Price>): Decision {
    if existing.None? then Create
    else
      var price := existing.value;
      if price.livemode then Refuse(LiveMode)
      else if !price.active then Refuse(Archived)
      else if price.kind != "one_time" then Refuse(NotOneTime)
      else if price.currency != currency then Refuse(OtherCurrency)
      else if price.unitAmount != Some(p.expectedAmountCents) then Refuse(OtherAmount)
      else Reuse(price.id)
  }

  // The Price a product is to be sold at, under this id.
  function Pinned(p: Jit, currency: string, id: string): Price {
    Price(id, true, "one_time", Some(p.expectedAmountCents), currency, false)
  }

  // What is wrong with a Price, the first fault of these five.
  predicate IsWrong(price: Price, p: Jit, currency: string, why: Why) {
    match why
    case LiveMode => price.livemode
    case Archived => !price.livemode && !price.active
    case NotOneTime => !price.livemode && price.active && price.kind != "one_time"
    case OtherCurrency => !price.livemode && price.active && price.kind == "one_time" && price.currency != currency
    case OtherAmount =>
      price == Pinned(p, currency, price.id).(unitAmount := price.unitAmount)
      && price.unitAmount != Some(p.expectedAmountCents)
  }

  // A product is given a Price when it has none, keeps the one that is as pinned in
  // every field, and is refused any other for what is wrong with it.
  lemma {:induction false} DecidesExactly(p: Jit, currency: string, existing: Option<Price>)
    ensures Decide(p, currency, existing) == Create <==> existing.None?
    ensures forall id :: Decide(p, currency, existing) == Reuse(id) <==> existing == Some(Pinned(p, currency, id))
    ensures forall why :: Decide(p, currency, existing) == Refuse(why)
                     <==> existing.Some? && IsWrong(existing.value, p, currency, why)
  {
    forall why ensures Decide(p, currency, existing) == Refuse(why)
                  <==> existing.Some? && IsWrong(existing.value, p, currency, why)
    {
      match why case LiveMode => case Archived => case NotOneTime => case OtherCurrency => case OtherAmount =>
    }
  }

  function SelectOptions(jits: seq<Jit>, all: bool): seq<Jit> {
    if jits == [] then []
    else (if all || jits[0].enabledBy.Some? then [jits[0]] else []) + SelectOptions(jits[1..], all)
  }

  function Held(store: Store, p: Jit): Option<Price> {
    var key := LookupKeyFor(p.productCode);
    if key in store.prices then Some(store.prices[key]) else None
  }

  function PriceMade(spec: NewPrice, made: Made): Price {
    Price(made.id, true, "one_time", Some(spec.unitAmount), spec.currency, made.livemode)
  }

  function AfterCreate(store: Store, spec: NewPrice, made: Made): Store {
    Store(store.prices[spec.lookupKey := PriceMade(spec, made)], store.created + [spec.lookupKey])
  }

  // ---- One run, product by product -------------------------------------------

  function SpecOf(p: Jit, currency: string): NewPrice {
    NewPrice(LookupKeyFor(p.productCode), p.expectedAmountCents, currency)
  }

  function StepCreate(g: Progress, p: Jit, o: Options, made: Option<Made>): Progress {
    if o.dryRun then g.(report := g.report + [WouldCreate])
    else if made.None? then g.(stopped := true)
    else
      var m := made.value;
      var h := g.(store := AfterCreate(g.store, SpecOf(p, o.currency), m));
      if m.replyArrives && !m.livemode
      then h.(lines := g.lines + [(p.priceEnv, m.id)], report := g.report + [Created(m.id)])
      else h.(stopped := true)
  }

  function Step(g: Progress, p: Jit, o: Options, t: Turn): Progress {
    if g.stopped then g
    else if !t.findAnswers then g.(stopped := true)
    else
      match Decide(p, o.currency, Held(g.store, p))
      case Refuse(why) => g.(refused := g.refused + 1, report := g.report + [Refused(why)])
      case Reuse(id) => g.(lines := g.lines + [(p.priceEnv, id)], report := g.report + [Kept(id)])
      case Create => StepCreate(g, p, o, t.made)
  }

  function Ran(store: Store, products: seq<Jit>, o: Options, turns: seq<Turn>): Progress
    requires |turns| == |products|
  {
    if products == [] then Progress(store, [], [], 0, false)
    else
      var n := |products| - 1;
      Step(Ran(store, products[..n], o, turns[..n]), products[n], o, turns[n])
  }

  lemma {:induction false} StoppedStays(store: Store, products: seq<Jit>, o: Options, turns: seq<Turn>, i: nat)
    requires i <= |products| == |turns|
    requires i == |products| || Ran(store, products[..i], o, turns[..i]).stopped
    ensures Ran(store, products, o, turns) == Ran(store, products[..i], o, turns[..i])
    decreases |products| - i
  {
    if i == |products| {
      assert products[..i] == products && turns[..i] == turns;
    } else {
      assert products[..i + 1][..i] == products[..i] && turns[..i + 1][..i] == turns[..i];
      StoppedStays(store, products, o, turns, i + 1);
    }
  }

  // ---- The script against Stripe ------------------------------------------------

  class Stripe {
    var prices: map<string, Price>
    ghost var created: seq<string>

    ghost function Contents(): Store
      reads this
    {
      Store(prices, created)
    }

    method FindPrice(lookupKey: string) returns (existing: Option<Price>)
      ensures existing == if lookupKey in prices then Some(prices[lookupKey]) else None
    {
      existing := if lookupKey in prices then Some(prices[lookupKey]) else None;
    }

    // prices.create, and the check that a test key made a test-mode Price.
    method CreatePrice(spec: NewPrice, made: Option<Made>) returns (id: Option<string>)
      modifies this
      ensures Contents() == if made.None? then old(Contents()) else AfterCreate(old(Contents()), spec, made.value)
      ensures id == if made.Some? && made.value.replyArrives && !made.value.livemode then Some(made.value.id) else None
    {
      if made.None? { return None; }
      prices := prices[spec.lookupKey := PriceMade(spec, made.value)];
      created := created + [spec.lookupKey];
      if !made.value.replyArrives || made.value.livemode { return None; }
      return Some(made.value.id);
    }
  }

  method RunProduct(stripe: Stripe, o: Options, product: Jit, turn: Turn,
        lines0: seq<(string, string)>, report0: seq<Verdict>, refused0: nat)
    returns (lines: seq<(string, string)>, report: seq<Verdict>, refused: nat, threw: bool)
    modifies stripe
    ensures Progress(stripe.Contents(), lines, report, refused, threw)
         == Step(Progress(old(stripe.Contents()), lines0, report0, refused0, false), product, o, turn)
  {
    lines, report, refused, threw := lines0, report0, refused0, true;
    if !turn.findAnswers { return; }
    var existing := stripe.FindPrice(LookupKeyFor(product.productCode));
    threw := false;
    match Decide(product, o.currency, existing)
    case Refuse(why) =>
      refused := refused + 1;
      report := report + [Refused(why)];
    case Reuse(id) =>
      lines := lines + [(product.priceEnv, id)];
      report := report + [Kept(id)];
    case Create =>
      if o.dryRun {
        report := report + [WouldCreate];
      } else {
        var id := stripe.CreatePrice(SpecOf(product, o.currency), turn.made);
        if id.None? { return lines, report, refused, true; }
        lines := lines + [(product.priceEnv, id.value)];
        report := report + [Created(id.value)];
      }
  }

  // The loop over the products, which ends early when something throws.
  method RunProducts(stripe: Stripe, o: Options, products: seq<Jit>, turns: seq<Turn>)
    returns (lines: seq<(string, string)>, report: seq<Verdict>, refused: nat, threw: bool)
    requires |turns| == |products|
    modifies stripe
    ensures Progress(stripe.Contents(), lines, report, refused, threw)
         == Ran(old(stripe.Contents()), products, o, turns)
  {
    lines, report, refused, threw := [], [], 0, false;
    var i := 0;
    while i < |products| && !threw
      invariant 0 <= i <= |products|
      invariant Progress(stripe.Contents(), lines, report, refused, threw)
             == Ran(old(stripe.Contents()), products[..i], o, turns[..i])
    {
      assert products[..i + 1][..i] == products[..i] && turns[..i + 1][..i] == turns[..i];
      lines, report, refused, threw := RunProduct(stripe, o, products[i], turns[i], lines, report, refused);
      i := i + 1;
    }
    StoppedStays(old(stripe.Contents()), products, o, turns, i);
  }

  method Run(stripe: Stripe, o: Options, all: bool, turns: seq<Turn>)
    returns (lines: seq<(string, string)>, report: seq<Verdict>, refused: nat, threw: bool)
    requires |turns| == |SelectOptions(JIT_PRODUCTS, all)|
    modifies stripe
    ensures Progress(stripe.Contents(), lines, report, refused, threw)
         == Ran(old(stripe.Contents()), SelectOptions(JIT_PRODUCTS, all), o, turns)
  {
    lines, report, refused, threw := RunProducts(stripe, o, SelectOptions(JIT_PRODUCTS, all), turns);
  }

  // ---- What every run keeps -------------------------------------------------------

  // Since `base`: no Price changed, and each other one was created just once.
  ghost predicate CreatedOnce(base: map<string, Price>, store: Store) {
    && NoDuplicates(store.created)
    && (forall k :: k in base ==> k in store.prices && store.prices[k] == base[k])
    && (forall k :: k in store.created <==> k in store.prices && k !in base)
  }

  // What the script made is as pinned, unless Stripe made it live.
  ghost predicate MadeToSpec(store: Store, currency: string) {
    forall p :: p in JIT_PRODUCTS && LookupKeyFor(p.productCode) in store.created ==>
      Held(store, p).Some? && AsPinnedButLive(Held(store, p).value, p, currency)
  }

  predicate AsPinnedButLive(price: Price, p: Jit, currency: string) {
    price.(livemode := false) == Pinned(p, currency, price.id)
  }

  lemma {:induction false} KeysDiffer(p: Jit, q: Jit)
    requires p in JIT_PRODUCTS && q in JIT_PRODUCTS && LookupKeyFor(p.productCode) == LookupKeyFor(q.productCode)
    ensures p == q
  {
    assert LookupKeyFor(p.productCode)[11..] == p.productCode && LookupKeyFor(q.productCode)[11..] == q.productCode;
    JitCodesDiffer();
    FoundByItsCode(JIT_PRODUCTS, p);
    FoundByItsCode(JIT_PRODUCTS, q);
  }

  lemma {:induction false} CreateKeepsOnce(base: map<string, Price>, store: Store, spec: NewPrice, made: Made)
    requires CreatedOnce(base, store) && spec.lookupKey !in store.prices
    ensures CreatedOnce(base, AfterCreate(store, spec, made))
  {
  }

  lemma {:induction false} CreateKeepsSpec(store: Store, currency: string, p: Jit, made: Made)
    requires MadeToSpec(store, currency) && p in JIT_PRODUCTS
    ensures MadeToSpec(AfterCreate(store, SpecOf(p, currency), made), currency)
  {
    var after := AfterCreate(store, SpecOf(p, currency), made);
    forall q | q in JIT_PRODUCTS && LookupKeyFor(q.productCode) in after.created
      ensures Held(after, q).Some? && AsPinnedButLive(Held(after, q).value, q, currency)
    {
      if LookupKeyFor(q.productCode) == LookupKeyFor(p.productCode) {
        KeysDiffer(p, q);
      } else {
        assert Held(after, q) == Held(store, q);
      }
    }
  }

  lemma {:induction false} StepKeepsOnce(base: map<string, Price>, g: Progress, p: Jit, o: Options, t: Turn)
    requires CreatedOnce(base, g.store) && MadeToSpec(g.store, o.currency) && p in JIT_PRODUCTS
    ensures CreatedOnce(base, Step(g, p, o, t).store) && MadeToSpec(Step(g, p, o, t).store, o.currency)
  {
    if Step(g, p, o, t).store != g.store {
      assert t.made.Some? && Held(g.store, p).None?;
      CreateKeepsOnce(base, g.store, SpecOf(p, o.currency), t.made.value);
      CreateKeepsSpec(g.store, o.currency, p, t.made.value);
    }
  }

  lemma {:induction false} RunKeepsOnce(base: map<string, Price>, store: Store, products: seq<Jit>, o: Options,
        turns: seq<Turn>)
    requires |turns| == |products| && forall p :: p in products ==> p in JIT_PRODUCTS
    requires CreatedOnce(base, store) && MadeToSpec(store, o.currency)
    ensures CreatedOnce(base, Ran(store, products, o, turns).store)
    ensures MadeToSpec(Ran(store, products, o, turns).store, o.currency)
  {
    if products != [] {
      var n := |products| - 1;
      RunKeepsOnce(base, store, products[..n], o, turns[..n]);
      StepKeepsOnce(base, Ran(store, products[..n], o, turns[..n]), products[n], o, turns[n]);
    }
  }

  // ---- Any number of runs, each stopping anywhere -----------------------------------

  datatype Plan = Plan(dryRun: bool, all: bool, turns: seq<Turn>)

  predicate Sized(plan: Plan) {
    |plan.turns| == |SelectOptions(JIT_PRODUCTS, plan.all)|
  }

  function RunPlan(store: Store, currency: string, plan: Plan): Progress
    requires Sized(plan)
  {
    Ran(store, SelectOptions(JIT_PRODUCTS, plan.all), Options(currency, plan.dryRun), plan.turns)
  }

  function AfterRuns(store: Store, currency: string, plans: seq<Plan>): Store
    requires forall i :: 0 <= i < |plans| ==> Sized(plans[i])
  {
    if plans == [] then store
    else RunPlan(AfterRuns(store, currency, plans[..|plans| - 1]), currency, plans[|plans| - 1]).store
  }

  lemma {:induction false} SelectedAreProducts(jits: seq<Jit>, all: bool)
    ensures forall p :: p in SelectOptions(jits, all) ==> p in jits
    ensures OneRowPerJit(jits) ==> OneRowPerJit(SelectOptions(jits, all))
  {
    if jits != [] {
      SelectedAreProducts(jits[1..], all);
      var rest := SelectOptions(jits[1..], all);
      if all || jits[0].enabledBy.Some? {
        assert SelectOptions(jits, all)[1..] == rest;
      } else {
        assert [] + rest == rest;
      }
    }
  }

  // Unless all are asked for, only the products that a setting turns on are run.
  lemma {:induction false} SelectedExactly(jits: seq<Jit>, all: bool, p: Jit)
    ensures p in SelectOptions(jits, all) <==> p in jits && (all || p.enabledBy.Some?)
  {
    if jits != [] {
      SelectedExactly(jits[1..], all, p);
      assert jits == [jits[0]] + jits[1..];
    }
  }

  lemma {:induction false} RunsKeepOnce(base: map<string, Price>, currency: string, plans: seq<Plan>)
    requires forall i :: 0 <= i < |plans| ==> Sized(plans[i])
    ensures CreatedOnce(base, AfterRuns(Store(base, []), currency, plans))
    ensures MadeToSpec(AfterRuns(Store(base, []), currency, plans), currency)
  {
    if plans != [] {
      var last := plans[|plans| - 1];
      RunsKeepOnce(base, currency, plans[..|plans| - 1]);
      SelectedAreProducts(JIT_PRODUCTS, last.all);
      RunKeepsOnce(base, AfterRuns(Store(base, []), currency, plans[..|plans| - 1]),
                   SelectOptions(JIT_PRODUCTS, last.all), Options(currency, last.dryRun), last.turns);
    }
  }

  // ---- What a complete run says ---------------------------------------------------

  ghost predicate Apart(products: seq<Jit>) {
    && (forall p :: p in products ==> p in JIT_PRODUCTS)
    && NoDuplicates(products)
  }

  lemma {:induction false} OneRowIsPairwise(jits: seq<Jit>)
    requires OneRowPerJit(jits)
    ensures NoDuplicates(jits)
  {
    if jits != [] {
      OneRowIsPairwise(jits[1..]);
      assert forall i :: 0 < i < |jits| ==> jits[i] == jits[1..][i - 1];
    }
  }

  lemma {:induction false} SelectedAreApart(all: bool)
    ensures Apart(SelectOptions(JIT_PRODUCTS, all))
  {
    JitCodesDiffer();
    SelectedAreProducts(JIT_PRODUCTS, all);
    OneRowIsPairwise(SelectOptions(JIT_PRODUCTS, all));
  }

  // The verdict agrees with what Stripe holds now under the product's lookup key.
  ghost predicate Settled(store: Store, p: Jit, currency: string, v: Verdict) {
    var key := "letter-irl-" + p.productCode;
    && key in store.prices
    && match v
       case Created(id) => store.prices[key] == Pinned(p, currency, id)
       case Kept(id) => store.prices[key] == Pinned(p, currency, id)
       case Refused(why) => IsWrong(store.prices[key], p, currency, why)
       case WouldCreate => false
  }

  // `NAME=price_...` for every product that has a Price now.
  function LinesOf(products: seq<Jit>, report: seq<Verdict>): seq<(string, string)>
    requires |report| == |products|
  {
    if products == [] then []
    else
      var n := |products| - 1;
      LinesOf(products[..n], report[..n])
      + match report[n]
        case Created(id) => [(products[n].priceEnv, id)]
        case Kept(id) => [(products[n].priceEnv, id)]
        case Refused(_) => []
        case WouldCreate => []
  }

  function RefusedIn(report: seq<Verdict>): nat {
    if report == [] then 0
    else RefusedIn(report[..|report| - 1]) + if report[|report| - 1].Refused? then 1 else 0
  }

  lemma {:induction false} StepTouchesOwn(g: Progress, p: Jit, o: Options, t: Turn, q: Jit)
    requires p in JIT_PRODUCTS && q in JIT_PRODUCTS && p != q
    ensures Held(Step(g, p, o, t).store, q) == Held(g.store, q)
  {
    if LookupKeyFor(p.productCode) == LookupKeyFor(q.productCode) { KeysDiffer(p, q); }
  }

  lemma {:induction false} RunTouchesOwn(store: Store, products: seq<Jit>, o: Options, turns: seq<Turn>, q: Jit)
    requires |turns| == |products| && q in JIT_PRODUCTS && q !in products
    requires forall p :: p in products ==> p in JIT_PRODUCTS
    ensures Held(Ran(store, products, o, turns).store, q) == Held(store, q)
  {
    if products != [] {
      var n := |products| - 1;
      RunTouchesOwn(store, products[..n], o, turns[..n], q);
      StepTouchesOwn(Ran(store, products[..n], o, turns[..n]), products[n], o, turns[n], q);
    }
  }

  lemma {:induction false} StepSettles(g: Progress, p: Jit, o: Options, t: Turn)
    requires !o.dryRun && !Step(g, p, o, t).stopped
    ensures var h := Step(g, p, o, t);
      && !g.stopped && |h.report| == |g.report| + 1 && h.report[..|g.report|] == g.report
      && Settled(h.store, p, o.currency, h.report[|g.report|])
      && (h.report[|g.report|].Created? <==> Held(g.store, p).None?)
      && h.refused == g.refused + (if h.report[|g.report|].Refused? then 1 else 0)
      && h.lines == g.lines + match h.report[|g.report|]
           case Created(id) => [(p.priceEnv, id)]
           case Kept(id) => [(p.priceEnv, id)]
           case Refused(_) => []
           case WouldCreate => []
  {
    assert g.lines + [] == g.lines;
    DecidesExactly(p, o.currency, Held(g.store, p));
  }

  lemma {:induction false} StaysSettled(g: Progress, p: Jit, o: Options, t: Turn, q: Jit, v: Verdict)
    requires p in JIT_PRODUCTS && q in JIT_PRODUCTS && p != q && Settled(g.store, q, o.currency, v)
    ensures Settled(Step(g, p, o, t).store, q, o.currency, v)
  {
    StepTouchesOwn(g, p, o, t, q);
  }

  lemma {:induction false} CompleteRunSettles(store: Store, products: seq<Jit>, o: Options, turns: seq<Turn>)
    requires |turns| == |products| && Apart(products) && !o.dryRun && !Ran(store, products, o, turns).stopped
    ensures var g := Ran(store, products, o, turns);
      && |g.report| == |products|
      && (forall i :: 0 <= i < |products| ==> Settled(g.store, products[i], o.currency, g.report[i]))
      && g.lines == LinesOf(products, g.report) && g.refused == RefusedIn(g.report)
  {
    if products != [] {
      var n := |products| - 1;
      var before, g := Ran(store, products[..n], o, turns[..n]), Ran(store, products, o, turns);
      StepSettles(before, products[n], o, turns[n]);
      CompleteRunSettles(store, products[..n], o, turns[..n]);
      forall i | 0 <= i < n ensures Settled(g.store, products[i], o.currency, g.report[i]) {
        assert products[..n][i] == products[i] && g.report[..n][i] == g.report[i];
        StaysSettled(before, products[n], o, turns[n], products[i], g.report[i]);
      }
    }
  }

  // It creates a Price for exactly the products that had none.
  lemma {:induction false} CreatesWhatIsMissing(store: Store, products: seq<Jit>, o: Options, turns: seq<Turn>, i: nat)
    requires |turns| == |products| && Apart(products) && !o.dryRun && !Ran(store, products, o, turns).stopped
    requires i < |products|
    ensures |Ran(store, products, o, turns).report| == |products|
    ensures Ran(store, products, o, turns).report[i].Created? <==> Held(store, products[i]).None?
  {
    var n := |products| - 1;
    CompleteRunSettles(store, products, o, turns);
    StepSettles(Ran(store, products[..n], o, turns[..n]), products[n], o, turns[n]);
    CompleteRunSettles(store, products[..n], o, turns[..n]);
    if i == n {
      RunTouchesOwn(store, products[..n], o, turns[..n], products[n]);
    } else {
      CreatesWhatIsMissing(store, products[..n], o, turns[..n], i);
    }
  }

  // From any Stripe state, after any runs in one currency that stopped anywhere,
  // one complete run leaves each lookup key created at most once, each Price
  // that was there as it was, and each product reused at its pinned amount and
  // currency or refused; and it refuses nothing the script made, unless Stripe
  // made it live.
  lemma {:induction false} StoppedRunsThenOne(base: map<string, Price>, currency: string, plans: seq<Plan>, last: Plan)
    requires (forall i :: 0 <= i < |plans| ==> Sized(plans[i])) && Sized(last) && !last.dryRun
    requires !RunPlan(AfterRuns(Store(base, []), currency, plans), currency, last).stopped
    ensures var products := SelectOptions(JIT_PRODUCTS, last.all);
      var g := RunPlan(AfterRuns(Store(base, []), currency, plans), currency, last);
      && CreatedOnce(base, g.store)
      && (forall p :: p in products <==> p in JIT_PRODUCTS && (last.all || p.enabledBy.Some?))
      && |g.report| == |products|
      && (forall i :: 0 <= i < |products| ==> Settled(g.store, products[i], currency, g.report[i]))
      && (forall i :: 0 <= i < |products| && LookupKeyFor(products[i].productCode) in g.store.created ==>
            g.report[i].Refused? ==> g.report[i].why == LiveMode)
      && g.lines == LinesOf(products, g.report) && g.refused == RefusedIn(g.report)
  {
    var products := SelectOptions(JIT_PRODUCTS, last.all);
    var store := AfterRuns(Store(base, []), currency, plans);
    var o := Options(currency, false);
    SelectedAreApart(last.all);
    forall p ensures p in products <==> p in JIT_PRODUCTS && (last.all || p.enabledBy.Some?) {
      SelectedExactly(JIT_PRODUCTS, last.all, p);
    }
    RunsKeepOnce(base, currency, plans);
    RunKeepsOnce(base, store, products, o, last.turns);
    CompleteRunSettles(store, products, o, last.turns);
    var g := Ran(store, products, o, last.turns);
    forall i | 0 <= i < |products| && LookupKeyFor(products[i].productCode) in g.store.created && g.report[i].Refused?
      ensures g.report[i].why == LiveMode
    {
      assert products[i] in JIT_PRODUCTS;
      assert Settled(g.store, products[i], currency, g.report[i]);
    }
  }

  // Stripe finds when asked, and creates a test-mode Price and says so.
  predicate Answers(t: Turn) {
    t.findAnswers && t.made.Some? && t.made.value.replyArrives && !t.made.value.livemode
  }

  // A run stops only when a call to Stripe did not go well.
  lemma {:induction false} AnsweredRunsComplete(store: Store, products: seq<Jit>, o: Options, turns: seq<Turn>)
    requires |turns| == |products| && forall i :: 0 <= i < |turns| ==> Answers(turns[i])
    ensures !Ran(store, products, o, turns).stopped
  {
    if products != [] { AnsweredRunsComplete(store, products[..|products| - 1], o, turns[..|products| - 1]); }
  }

  // A product with a Price already is never given another: a rerun after a
  // complete run changes nothing.
  lemma {:induction false} RerunCreatesNothing(store: Store, products: seq<Jit>, o: Options, turns: seq<Turn>)
    requires |turns| == |products| && forall p :: p in products ==> Held(store, p).Some?
    ensures Ran(store, products, o, turns).store == store
  {
    if products != [] {
      var n := |products| - 1;
      RerunCreatesNothing(store, products[..n], o, turns[..n]);
      assert products[n] in products;
    }
  }

  ghost predicate Foretells(dry: Verdict, actual: Verdict) {
    if actual.Created? then dry == WouldCreate else dry == actual
  }

  // A dry run changes nothing, and says of each product what a real run from the
  // same state does: it names exactly the products that run creates.
  lemma {:induction false} DryRunForetells(store: Store, products: seq<Jit>, currency: string,
        dryTurns: seq<Turn>, turns: seq<Turn>)
    requires |dryTurns| == |turns| == |products| && Apart(products)
    requires !Ran(store, products, Options(currency, true), dryTurns).stopped
    requires !Ran(store, products, Options(currency, false), turns).stopped
    ensures var dry := Ran(store, products, Options(currency, true), dryTurns);
      var g := Ran(store, products, Options(currency, false), turns);
      && dry.store == store && |dry.report| == |g.report| == |products|
      && (forall i :: 0 <= i < |products| ==> Foretells(dry.report[i], g.report[i]))
  {
    if products != [] {
      var n := |products| - 1;
      DryRunForetells(store, products[..n], currency, dryTurns[..n], turns[..n]);
      RunTouchesOwn(store, products[..n], Options(currency, false), turns[..n], products[n]);
    }
  }
}
