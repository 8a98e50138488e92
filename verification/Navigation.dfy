/**
 The storefront's navigation stack: actions push a snapshot of the screen, the back button pops
 one. Rendering, the URL and scrolling are not part of this model.
 */
module Navigation {
  import opened Options
  import opened Runs

  datatype Product = Product(id: string, slug: string)
  datatype Vendor = Vendor(id: string, slug: string)

  /** The state a snapshot holds; `filters` is the category page's sort and filter choice. */
  datatype Screen = Screen(view: string, product: Option<Product>, vendor: Option<Vendor>,
                           category: Option<string>, country: Option<string>, homeTab: string,
                           query: string, filters: string)

  const HOME := "home"
  const SEARCH := "search"
  const EXPLORE := "explore"
  const DEFAULT_FILTERS := "newest"

  const FIRST := Screen(HOME, None, None, None, None, EXPLORE, "", DEFAULT_FILTERS)

  datatype State = State(screen: Screen, stack: seq<Screen>)

  datatype Op =
    | Navigate(view: string)
    | OpenProduct(product: Product)
    | OpenVendor(vendor: Vendor)
    | OpenCategory(slug: string)
    | OpenCountry(code: string)
    | SelectHomeTab(slug: string)
    | Search(query: string)
    | GoHome
    | Back
    | OrderComplete
    /** Any change that does not go through the stack: a filter, a loaded product, the URL. */
    | Drift(screen: Screen)

  // ---------- Steps ----------

  /**
   The snapshot always holds `s`, the screen of the last render, even when the action has already
   changed some fields to `changed`; nothing happens when the view does not change.
   */
  function NavigateFrom(s: State, changed: Screen, view: string): State {
    if view == s.screen.view then State(changed, s.stack)
    else State(changed.(view := view), s.stack + [s.screen])
  }

  /** What a popped snapshot puts on the screen: the search text only on the search view. */
  function Restored(snapshot: Screen): Screen {
    snapshot.(query := if snapshot.view == SEARCH then snapshot.query else "")
  }

  function Step(s: State, op: Op): State {
    var now := s.screen;
    match op
    case Navigate(view) => NavigateFrom(s, now, view)
    case OpenProduct(p) =>
      var shown := now.(product := Some(p), query := "");
      if now.view == "product" && (now.product.None? || now.product.value.id != p.id)
      then State(shown, s.stack + [now]) else NavigateFrom(s, shown, "product")
    case OpenVendor(v) =>
      var shown := now.(vendor := Some(v), query := "");
      if now.view == "store" then State(shown, s.stack + [now]) else NavigateFrom(s, shown, "store")
    case OpenCategory(slug) =>
      NavigateFrom(s, now.(category := Some(slug), filters := DEFAULT_FILTERS), "category")
    case OpenCountry(code) => NavigateFrom(s, now.(country := Some(code)), "country")
    case SelectHomeTab(slug) =>
      if slug == now.homeTab then s else State(now.(homeTab := slug), s.stack + [now])
    case Search(query) => NavigateFrom(s, now.(query := query), SEARCH)
    case GoHome => NavigateFrom(s, now.(category := None, query := ""), HOME)
    case Back =>
      if s.stack == [] then State(now.(view := HOME, query := ""), [])
      else State(Restored(s.stack[|s.stack| - 1]), s.stack[..|s.stack| - 1])
    case OrderComplete => NavigateFrom(State(now, []), now, "clientDashboard")
    case Drift(screen) => State(screen, s.stack)
  }

  function After(s: State, run: Run<Op>): State {
    match run
    case Start => s
    case Then(past, op) => Step(After(s, past), op)
  }

  // ---------- The page ----------

  class Page {
    var screen: Screen
    var navStack: seq<Screen>

    function View(): State
      reads this
    {
      State(screen, navStack)
    }

    constructor ()
      ensures View() == State(FIRST, [])
    {
      screen, navStack := FIRST, [];
    }

    /** `rendered` is the screen the callback closed over. */
    method NavigateTo(view: string, rendered: Screen)
      modifies this
      ensures View() == if view == rendered.view then old(View())
                        else State(old(screen).(view := view), old(navStack) + [rendered])
    {
      if view == rendered.view {
        return;
      }
      navStack := navStack + [rendered];
      screen := screen.(view := view);
    }

    method HandleProductClick(p: Product)
      modifies this
      ensures View() == Step(old(View()), OpenProduct(p))
    {
      var rendered := screen;
      if rendered.view == "product" && (rendered.product.None? || rendered.product.value.id != p.id) {
        navStack := navStack + [rendered];
        screen := screen.(product := Some(p));
        screen := screen.(query := "");
      } else {
        screen := screen.(product := Some(p));
        screen := screen.(query := "");
        NavigateTo("product", rendered);
      }
    }

    method HandleVendorClick(v: Vendor)
      modifies this
      ensures View() == Step(old(View()), OpenVendor(v))
    {
      var rendered := screen;
      if rendered.view == "store" {
        navStack := navStack + [rendered];
        screen := screen.(vendor := Some(v));
        screen := screen.(query := "");
      } else {
        screen := screen.(vendor := Some(v));
        screen := screen.(query := "");
        NavigateTo("store", rendered);
      }
    }

    /** Opening a category from elsewhere starts with fresh filters. */
    method OpenCategory(slug: string)
      modifies this
      ensures View() == Step(old(View()), Op.OpenCategory(slug))
    {
      var rendered := screen;
      screen := screen.(category := Some(slug));
      screen := screen.(filters := DEFAULT_FILTERS);
      NavigateTo("category", rendered);
    }

    /** A country that is not on the list is not opened. */
    method HandleCountryClick(code: string, countries: set<string>)
      modifies this
      ensures View() == if code in countries then Step(old(View()), OpenCountry(code)) else old(View())
    {
      var rendered := screen;
      if code in countries {
        screen := screen.(country := Some(code));
        NavigateTo("country", rendered);
      }
    }

    method OnHomeClick()
      modifies this
      ensures View() == Step(old(View()), GoHome)
    {
      var rendered := screen;
      screen := screen.(category := None);
      screen := screen.(query := "");
      NavigateTo(HOME, rendered);
    }

    method OnOrderComplete()
      modifies this
      ensures View() == Step(old(View()), OrderComplete)
    {
      navStack := [];
      NavigateTo("clientDashboard", screen);
    }

    method HandleSelectHomeTab(slug: string)
      modifies this
      ensures View() == Step(old(View()), SelectHomeTab(slug))
    {
      if slug == screen.homeTab {
        return;
      }
      navStack := navStack + [screen];
      screen := screen.(homeTab := slug);
    }

    method HandleSearch(query: string)
      modifies this
      ensures View() == Step(old(View()), Search(query))
    {
      var rendered := screen;
      screen := screen.(query := query);
      if rendered.view != SEARCH {
        NavigateTo(SEARCH, rendered);
      }
    }

    method RestoreFromStack()
      modifies this
      ensures View() == Step(old(View()), Back)
    {
      if navStack == [] {
        screen := screen.(view := HOME);
        screen := screen.(query := "");
        return;
      }
      var snapshot := navStack[|navStack| - 1];
      navStack := navStack[..|navStack| - 1];
      screen := screen.(view := snapshot.view, product := snapshot.product, vendor := snapshot.vendor,
                        category := snapshot.category, country := snapshot.country,
                        homeTab := snapshot.homeTab, filters := snapshot.filters);
      screen := screen.(query := if snapshot.view == SEARCH then snapshot.query else "");
    }
  }

  // ---------- What a step shows ----------

  /** The screen already shows the product of that id. */
  predicate ShowsProduct(screen: Screen, id: string) {
    screen.view == "product" && screen.product.Some? && screen.product.value.id == id
  }

  /** Clicking a product shows it, with no search text and all else as it was, and saves the screen unless it was
      already showing that product. */
  lemma ProductClick(s: State, p: Product)
    ensures var t := Step(s, OpenProduct(p));
            && t.screen.view == "product" && t.screen.product == Some(p) && t.screen.query == ""
            && t.screen.vendor == s.screen.vendor && t.screen.category == s.screen.category
            && t.screen.country == s.screen.country && t.screen.homeTab == s.screen.homeTab
            && t.screen.filters == s.screen.filters
            && t.stack == if ShowsProduct(s.screen, p.id) then s.stack else s.stack + [s.screen]
  {
  }

  /** Clicking a shop shows it and always saves the screen, even the same shop's. */
  lemma VendorClick(s: State, v: Vendor)
    ensures var t := Step(s, OpenVendor(v));
            && t.screen.view == "store" && t.screen.vendor == Some(v) && t.screen.query == ""
            && t.screen.product == s.screen.product && t.screen.category == s.screen.category
            && t.screen.country == s.screen.country && t.screen.homeTab == s.screen.homeTab
            && t.screen.filters == s.screen.filters
            && t.stack == s.stack + [s.screen]
  {
  }

  /** Opening a category shows it with fresh filters, and saves the screen unless a category was shown. */
  lemma CategoryClick(s: State, slug: string)
    ensures var t := Step(s, OpenCategory(slug));
            && t.screen.view == "category" && t.screen.category == Some(slug) && t.screen.filters == "newest"
            && t.screen.product == s.screen.product && t.screen.vendor == s.screen.vendor
            && t.screen.country == s.screen.country && t.screen.homeTab == s.screen.homeTab
            && t.screen.query == s.screen.query
            && t.stack == if s.screen.view == "category" then s.stack else s.stack + [s.screen]
  {
  }

  lemma CountryClick(s: State, code: string)
    ensures var t := Step(s, OpenCountry(code));
            && t.screen.view == "country" && t.screen.country == Some(code)
            && t.screen.product == s.screen.product && t.screen.vendor == s.screen.vendor
            && t.screen.category == s.screen.category && t.screen.homeTab == s.screen.homeTab
            && t.screen.query == s.screen.query && t.screen.filters == s.screen.filters
            && t.stack == if s.screen.view == "country" then s.stack else s.stack + [s.screen]
  {
  }

  /** Selecting a home tab changes the tab alone, and saves the screen unless it is the same tab. */
  lemma HomeTabClick(s: State, slug: string)
    ensures var t := Step(s, SelectHomeTab(slug));
            && t.screen == s.screen.(homeTab := slug)
            && t.stack == if slug == s.screen.homeTab then s.stack else s.stack + [s.screen]
  {
  }

  /** Searching shows the search with its text, and saves the screen only on the way in. */
  lemma Searching(s: State, query: string)
    ensures var t := Step(s, Search(query));
            && t.screen.view == "search" && t.screen.query == query
            && t.screen.product == s.screen.product && t.screen.vendor == s.screen.vendor
            && t.screen.category == s.screen.category && t.screen.country == s.screen.country
            && t.screen.homeTab == s.screen.homeTab && t.screen.filters == s.screen.filters
            && t.stack == if s.screen.view == "search" then s.stack else s.stack + [s.screen]
  {
  }

  /** Going home forgets the category and the search text; completing an order leaves nothing to go back to but the
      screen it was completed on. */
  lemma LeavingAndFinishing(s: State, view: string)
    ensures var t := Step(s, GoHome);
            && t.screen == s.screen.(view := "home", category := None, query := "")
            && t.stack == if s.screen.view == "home" then s.stack else s.stack + [s.screen]
    ensures var t := Step(s, OrderComplete);
            && t.screen == s.screen.(view := "clientDashboard")
            && t.stack == if s.screen.view == "clientDashboard" then [] else [s.screen]
    ensures var t := Step(s, Navigate(view));
            && t.screen == s.screen.(view := view)
            && t.stack == if s.screen.view == view then s.stack else s.stack + [s.screen]
  {
  }

  /** Whether a step saves the screen it is taken on. */
  predicate Saves(screen: Screen, op: Op) {
    match op
    case Navigate(view) => view != screen.view
    case OpenProduct(p) => !ShowsProduct(screen, p.id)
    case OpenVendor(_) => true
    case OpenCategory(_) => screen.view != "category"
    case OpenCountry(_) => screen.view != "country"
    case SelectHomeTab(slug) => slug != screen.homeTab
    case Search(_) => screen.view != "search"
    case GoHome => screen.view != "home"
    case _ => false
  }

  /** Any forward step followed straight by back is the identity on the stack and on every field but the search text,
      which only the search keeps; a step that saves nothing leaves back to do what it would have done. */
  lemma {:induction false} ForwardAndBack(s: State, op: Op)
    requires !op.Back? && !op.OrderComplete? && !op.Drift?
    ensures var t := Step(Step(s, op), Back);
            if Saves(s.screen, op) then
              && t.stack == s.stack
              && t.screen == s.screen.(query := if s.screen.view == "search" then s.screen.query else "")
            else if s.stack != [] then t == Step(s, Back)
            else t.stack == [] && t.screen.view == "home" && t.screen.query == ""
  {
    var t := Step(s, op);
    if Saves(s.screen, op) {
      assert t.stack == s.stack + [s.screen];
      assert t.stack[..|t.stack| - 1] == s.stack;
    } else {
      assert t.stack == s.stack;
    }
  }

  // ---------- What whole runs show ----------

  predicate Occurs(run: Run<Op>, op: Op) {
    run.Then? && (run.last == op || Occurs(run.past, op))
  }

  /** Every subject on the screen was opened in the run, and the views that need one have one. */
  ghost predicate Opened(run: Run<Op>, screen: Screen) {
    && (screen.product.Some? ==> Occurs(run, OpenProduct(screen.product.value)))
    && (screen.vendor.Some? ==> Occurs(run, OpenVendor(screen.vendor.value)))
    && (screen.category.Some? ==> Occurs(run, OpenCategory(screen.category.value)))
    && (screen.country.Some? ==> Occurs(run, OpenCountry(screen.country.value)))
    && (screen.homeTab != "explore" ==> Occurs(run, SelectHomeTab(screen.homeTab)))
    && (screen.query != "" ==> Occurs(run, Search(screen.query)))
    && (screen.view == "product" ==> screen.product.Some?)
    && (screen.view == "store" ==> screen.vendor.Some?)
    && (screen.view == "category" ==> screen.category.Some?)
    && (screen.view == "country" ==> screen.country.Some?)
  }

  /** Nothing changes the screen but these steps, and the views with a subject are opened with it. */
  predicate ByClicks(run: Run<Op>) {
    run.Then? ==>
      && ByClicks(run.past)
      && !run.last.Drift?
      && (run.last.Navigate? ==> run.last.view !in {"product", "store", "category", "country"})
  }

  /** In every run of clicks, whatever is shown, or would be shown after going back, was opened by a step of the run,
      and no view lacks its subject. */
  lemma {:induction false} ShownWasOpened(run: Run<Op>)
    requires ByClicks(run)
    ensures var s := After(State(FIRST, []), run);
            Opened(run, s.screen) && forall i :: 0 <= i < |s.stack| ==> Opened(run, s.stack[i])
  {
    if run.Then? {
      ShownWasOpened(run.past);
      var s := After(State(FIRST, []), run.past);
      hide After, Opened, Step;
      StillOpened(run, s.screen);
      forall i | 0 <= i < |s.stack| ensures Opened(run, s.stack[i]) { StillOpened(run, s.stack[i]); }
      NextOpened(s, run);
      StepOnStack(s, run.last);
      assert After(State(FIRST, []), run) == Step(s, run.last) by { OneMore(State(FIRST, []), run); }
    }
  }

  lemma {:induction false} OneMore(s: State, run: Run<Op>)
    requires run.Then?
    ensures After(s, run) == Step(After(s, run.past), run.last)
  {
  }

  lemma {:induction false} StillOpened(run: Run<Op>, screen: Screen)
    requires run.Then?
    ensures Opened(run.past, screen) ==> Opened(run, screen)
  {
  }

  lemma {:induction false} NextOpened(s: State, run: Run<Op>)
    requires run.Then? && ByClicks(run) && Opened(run, s.screen)
    requires forall i :: 0 <= i < |s.stack| ==> Opened(run, s.stack[i])
    ensures Opened(run, Step(s, run.last).screen)
  {
    assert Occurs(run, run.last);
    if run.last.Back? && s.stack != [] { assert Opened(run, s.stack[|s.stack| - 1]); }
    assert run.last.Navigate? ==> run.last.view !in {"product", "store", "category", "country"};
    hide Occurs, ByClicks, Step;
    match run.last
    case Navigate(view) => LeavingAndFinishing(s, view);
    case OpenProduct(p) => ProductClick(s, p);
    case OpenVendor(v) => VendorClick(s, v);
    case OpenCategory(slug) => CategoryClick(s, slug);
    case OpenCountry(code) => CountryClick(s, code);
    case SelectHomeTab(slug) => HomeTabClick(s, slug);
    case Search(query) => Searching(s, query);
    case GoHome => LeavingAndFinishing(s, "");
    case Back => BackShows(s);
    case OrderComplete => LeavingAndFinishing(s, "");
  }

  lemma BackShows(s: State)
    ensures Step(s, Back).screen == if s.stack == [] then s.screen.(view := "home", query := "")
                                    else Restored(s.stack[|s.stack| - 1])
  {
  }

  // ---------- Nesting ----------

  /** One step pushes the current screen, pops one, clears the stack, or leaves it alone. */
  lemma {:induction false} StepOnStack(s: State, op: Op)
    ensures var after := Step(s, op).stack;
            || after == s.stack
            || after == s.stack + [s.screen]
            || (op.Back? && s.stack != [] && after == s.stack[..|s.stack| - 1])
            || (op.OrderComplete? && |after| <= 1)
  {
  }

  /** The run never lets the stack fall below `depth` and never starts a new one. */
  predicate StaysAbove(s: State, run: Run<Op>, depth: nat) {
    run.Then? ==> StaysAbove(s, run.past, depth) && !run.last.OrderComplete? && |After(s, run).stack| >= depth
  }

  /** What lies below the surface of a stack is untouched by anything above it. */
  lemma {:induction false} DepthsUntouched(s: State, run: Run<Op>, depth: nat)
    requires depth <= |s.stack| && StaysAbove(s, run, depth)
    ensures |After(s, run).stack| >= depth && After(s, run).stack[..depth] == s.stack[..depth]
  {
    if run.Then? {
      DepthsUntouched(s, run.past, depth);
      StepOnStack(After(s, run.past), run.last);
      var before, after := After(s, run.past).stack, After(s, run).stack;
      assert after[..depth] == before[..depth];
    }
  }

  /**
   Proper nesting: `push` saved the screen it was made on; whatever happens above that entry, the
   back step that pops it restores every field of that screen, and the search text exactly when
   the restored view is the search view.
   */
  lemma {:induction false} BackRestoresItsPush(s: State, push: Op, between: Run<Op>)
    requires !push.OrderComplete? && |Step(s, push).stack| == |s.stack| + 1
    requires StaysAbove(Step(s, push), between, |s.stack| + 1)
    requires |After(Step(s, push), between).stack| == |s.stack| + 1
    ensures var end := Step(After(Step(s, push), between), Back);
            && end.stack == s.stack
            && end.screen.view == s.screen.view && end.screen.product == s.screen.product
            && end.screen.vendor == s.screen.vendor && end.screen.category == s.screen.category
            && end.screen.country == s.screen.country && end.screen.homeTab == s.screen.homeTab
            && end.screen.filters == s.screen.filters
            && end.screen.query == if s.screen.view == SEARCH then s.screen.query else ""
  {
    var pushed, n := Step(s, push), |s.stack| + 1;
    StepOnStack(s, push);
    DepthsUntouched(pushed, between, n);
    var top := After(pushed, between).stack;
    assert top == top[..n] == pushed.stack[..n] == s.stack + [s.screen];
  }

  /** The entry at `depth` of the stack a run ends on was pushed somewhere in that run. */
  ghost predicate PushedAt(run: Run<Op>, depth: nat, snapshot: Screen) {
    exists before: Run<Op>, push: Op, between: Run<Op> ::
      && run == Append(Then(before, push), between)
      && IsPush(before, push, between, depth, snapshot)
  }

  ghost predicate IsPush(before: Run<Op>, push: Op, between: Run<Op>, depth: nat, snapshot: Screen) {
    var s := After(State(FIRST, []), before);
    && s.screen == snapshot
    && |After(State(FIRST, []), Then(before, push)).stack| == depth + 1
    && (push.OrderComplete? || |s.stack| == depth)
    && StaysAbove(After(State(FIRST, []), Then(before, push)), between, depth + 1)
  }

  lemma {:induction false} AfterAppend(s: State, a: Run<Op>, b: Run<Op>)
    ensures After(s, Append(a, b)) == After(After(s, a), b)
  {
    if b.Then? { AfterAppend(s, a, b.past); }
  }

  /** In every run from the first screen, each entry of the stack has its matching push. */
  lemma {:induction false} EveryEntryWasPushed(run: Run<Op>, depth: nat)
    requires depth < |After(State(FIRST, []), run).stack|
    ensures PushedAt(run, depth, After(State(FIRST, []), run).stack[depth])
  {
    var first := State(FIRST, []);
    var s, op, after := After(first, run.past), run.last, After(first, run).stack;
    StepOnStack(s, op);
    if !op.OrderComplete? && depth < |s.stack| {
      EveryEntryWasPushed(run.past, depth);
      var before, push, between :| run.past == Append(Then(before, push), between)
                                   && IsPush(before, push, between, depth, s.stack[depth]);
      AfterAppend(first, Then(before, push), between);
      assert run == Append(Then(before, push), Then(between, op));
      assert after[depth] == s.stack[depth];
      assert After(After(first, Then(before, push)), Then(between, op)).stack == after;
      assert IsPush(before, push, Then(between, op), depth, after[depth]);
    } else {
      assert run == Append(Then(run.past, op), Start);
      assert after[depth] == s.screen;
      assert IsPush(run.past, op, Start, depth, s.screen);
    }
  }

  /** A run followed by back: `push`, made on the screen after `before`, is undone. */
  ghost predicate Undoes(run: Run<Op>, before: Run<Op>, push: Op, between: Run<Op>)
    requires After(State(FIRST, []), run).stack != []
  {
    var first := State(FIRST, []);
    && run == Append(Then(before, push), between)
    && IsPush(before, push, between, |After(first, run).stack| - 1, After(first, before).screen)
    && After(first, Then(run, Back)).screen == Restored(After(first, before).screen)
  }

  lemma BackPops(s: State, run: Run<Op>)
    requires After(s, run).stack != []
    ensures var stack := After(s, run).stack; After(s, Then(run, Back)).screen == Restored(stack[|stack| - 1])
  {
  }

  /**
   So every back step of every run that pops an entry undoes one earlier push of that run, with
   nothing in between reaching below it, and restores the screen that push was made on.
   */
  lemma {:induction false} EveryBackUndoesAPush(run: Run<Op>)
    requires After(State(FIRST, []), run).stack != []
    ensures exists before, push, between :: Undoes(run, before, push, between)
  {
    var stack := After(State(FIRST, []), run).stack;
    EveryEntryWasPushed(run, |stack| - 1);
    BackPops(State(FIRST, []), run);
    hide After, Append, Restored, IsPush;
    var before, push, between :| run == Append(Then(before, push), between)
                                 && IsPush(before, push, between, |stack| - 1, stack[|stack| - 1]);
    PushedScreen(before, push, between, |stack| - 1, stack[|stack| - 1]);
    assert Undoes(run, before, push, between);
  }

  lemma PushedScreen(before: Run<Op>, push: Op, between: Run<Op>, depth: nat, snapshot: Screen)
    requires IsPush(before, push, between, depth, snapshot)
    ensures After(State(FIRST, []), before).screen == snapshot
  {
  }
}
