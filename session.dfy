/**
 * The per-user session: login, the rating map, the four filter selections,
 * the rating widgets' values and a few flags. Each method is one update the
 * page makes to its session dictionary; a missing key is modelled by its
 * default (false, empty, the programs page).
 */
module Session {
  import opened Wrappers
  import opened Catalogue
  import FilterResolver
  import Months

  datatype Page = Programs | Analysis

  /** One row of the user's saved ratings file: its `index` and `rating` columns. */
  datatype SavedRating = SavedRating(programId: ProgramId, rating: int)

  /** The four multiselect values, in the order the filters dictionary lists them. */
  datatype Selections = Selections(series: seq<string>, composers: seq<string>, weekdays: seq<string>, monthLabels: seq<string>)

  const NoSelections := Selections([], [], [], [])

  /**
   * `st.session_state["ratings"][r["index"]] = int(r["rating"])` for each
   * saved row in file order: the ratings after the first `|saved|` rows.
   */
  function Merged(ratings: map<ProgramId, int>, saved: seq<SavedRating>): map<ProgramId, int>
  {
    if saved == [] then ratings
    else
      var last := saved[|saved| - 1];
      Merged(ratings, saved[..|saved| - 1])[last.programId := last.rating]
  }

  /** Some row of the file names the program. */
  ghost predicate Mentions(saved: seq<SavedRating>, pid: ProgramId)
  {
    exists k :: 0 <= k < |saved| && saved[k].programId == pid
  }

  /** Row `k` is the last row of the file for its program. */
  ghost predicate LastFor(saved: seq<SavedRating>, k: int)
    requires 0 <= k < |saved|
  {
    forall k2 :: k < k2 < |saved| ==> saved[k2].programId != saved[k].programId
  }

  /** Loading adds exactly the programs the file names. */
  lemma {:induction false} MergedKeys(ratings: map<ProgramId, int>, saved: seq<SavedRating>)
    ensures forall pid :: pid in Merged(ratings, saved) <==> pid in ratings || Mentions(saved, pid)
  {
    if saved != [] {
      var init := saved[..|saved| - 1];
      MergedKeys(ratings, init);
      forall pid ensures Mentions(saved, pid) <==> Mentions(init, pid) || saved[|saved| - 1].programId == pid {
        if Mentions(saved, pid) {
          var k :| 0 <= k < |saved| && saved[k].programId == pid;
          if k < |saved| - 1 {
            assert init[k] == saved[k];
          }
        }
        if Mentions(init, pid) {
          var k :| 0 <= k < |init| && init[k].programId == pid;
          assert saved[k] == init[k];
        }
      }
    }
  }

  /** A program the file does not name keeps its rating. */
  lemma {:induction false} MergedKeepsOthers(ratings: map<ProgramId, int>, saved: seq<SavedRating>, pid: ProgramId)
    requires pid in ratings && !Mentions(saved, pid)
    ensures pid in Merged(ratings, saved) && Merged(ratings, saved)[pid] == ratings[pid]
  {
    if saved != [] {
      var init := saved[..|saved| - 1];
      assert saved[|saved| - 1].programId != pid;
      assert !Mentions(init, pid) by {
        forall k | 0 <= k < |init| ensures init[k].programId != pid {
          assert init[k] == saved[k];
        }
      }
      MergedKeepsOthers(ratings, init, pid);
    }
  }

  /** A named program ends with the rating of its last row. */
  lemma {:induction false} MergedTakesLast(ratings: map<ProgramId, int>, saved: seq<SavedRating>, k: int)
    requires 0 <= k < |saved| && LastFor(saved, k)
    ensures saved[k].programId in Merged(ratings, saved)
    ensures Merged(ratings, saved)[saved[k].programId] == saved[k].rating
  {
    var init := saved[..|saved| - 1];
    if k < |saved| - 1 {
      assert saved[|saved| - 1].programId != saved[k].programId;
      assert init[k] == saved[k];
      assert LastFor(init, k) by {
        forall k2 | k < k2 < |init| ensures init[k2].programId != init[k].programId {
          assert init[k2] == saved[k2];
        }
      }
      MergedTakesLast(ratings, init, k);
    }
  }

  /** Every rating is one the widgets offer. */
  ghost predicate RatingsInRange(ratings: map<ProgramId, int>)
  {
    forall pid :: pid in ratings ==> 0 <= ratings[pid] <= 3
  }

  /** Loading a file of in-range ratings keeps the map in range. */
  lemma {:induction false} MergedInRange(ratings: map<ProgramId, int>, saved: seq<SavedRating>)
    requires RatingsInRange(ratings)
    requires forall k :: 0 <= k < |saved| ==> 0 <= saved[k].rating <= 3
    ensures RatingsInRange(Merged(ratings, saved))
  {
    if saved != [] {
      var init := saved[..|saved| - 1];
      assert forall k :: 0 <= k < |init| ==> init[k] == saved[k];
      MergedInRange(ratings, init);
    }
  }

  class SessionState {
    var loggedIn: bool
    var userEmail: string
    var userNome: string
    var ratings: map<ProgramId, int>
    var ratingsLoaded: bool
    var selections: Selections
    /** The radio widgets' values, `st.session_state[f"r_{pid}"]`. */
    var ratingWidgets: map<ProgramId, int>
    var showResetConfirmation: bool
    var page: Page

    function Login(): (bool, string, string)
      reads this
    {
      (loggedIn, userEmail, userNome)
    }

    /**
     * The state right after a successful login (lines 46-48) and the
     * session defaults (lines 160-162 and 313-314).
     */
    constructor(email: string, nome: string)
      ensures Login() == (true, email, nome)
      ensures ratings == map[] && !ratingsLoaded
      ensures selections == NoSelections && ratingWidgets == map[]
      ensures !showResetConfirmation && page == Programs
    {
      loggedIn, userEmail, userNome := true, email, nome;
      ratings, ratingsLoaded := map[], false;
      selections, ratingWidgets := NoSelections, map[];
      showResetConfirmation, page := false, Programs;
    }

    /**
     * The filters dictionary of lines 302-307, or None where a month label
     * is unknown and `num_month` raises.
     */
    function CurrentFilters(): (f: Option<FilterResolver.Filters>)
      reads this
      ensures f.Some? <==> forall i :: 0 <= i < |selections.monthLabels| ==> selections.monthLabels[i] in Months.Abbreviations
      ensures f.Some? ==> f.value.serie == selections.series && f.value.compositor == selections.composers
      ensures f.Some? ==> f.value.diaSemana == selections.weekdays && |f.value.mes| == |selections.monthLabels|
      ensures f.Some? ==> forall i :: 0 <= i < |f.value.mes| ==>
        1 <= f.value.mes[i] <= 12 && Months.Abbreviations[f.value.mes[i] - 1] == selections.monthLabels[i]
    {
      match Months.MonthNumbers(selections.monthLabels)
      case None => None
      case Some(months) => Some(FilterResolver.Filters(selections.series, selections.composers, selections.weekdays, months))
    }

    /** `clear_all_filters` (lines 131-136): empties the four selections and nothing else. */
    method ClearAllFilters()
      modifies this
      ensures selections == NoSelections
      ensures CurrentFilters() == Some(FilterResolver.Filters([], [], [], []))
      ensures Login() == old(Login()) && ratings == old(ratings) && ratingsLoaded == old(ratingsLoaded)
      ensures ratingWidgets == old(ratingWidgets) && showResetConfirmation == old(showResetConfirmation)
      ensures page == old(page)
    {
      selections := NoSelections;
    }

    /** Lines 202-203 and 213-214: applies the saved rows in file order. */
    method MergeSaved(saved: seq<SavedRating>)
      modifies this
      ensures ratings == Merged(old(ratings), saved)
      ensures Login() == old(Login()) && ratingsLoaded == old(ratingsLoaded) && selections == old(selections)
      ensures ratingWidgets == old(ratingWidgets) && showResetConfirmation == old(showResetConfirmation)
      ensures page == old(page)
    {
      for i := 0 to |saved|
        invariant ratings == Merged(old(ratings), saved[..i])
        invariant Login() == old(Login()) && ratingsLoaded == old(ratingsLoaded) && selections == old(selections)
        invariant ratingWidgets == old(ratingWidgets) && showResetConfirmation == old(showResetConfirmation)
        invariant page == old(page)
      {
        var r := saved[i];
        assert saved[..i + 1][..i] == saved[..i];
        ratings := ratings[r.programId := r.rating];
      }
      assert saved[..|saved|] == saved;
    }

    /**
     * The load button (lines 198-206): merges the file when it exists, and
     * otherwise only warns.
     */
    method LoadSavedRatings(file: Option<seq<SavedRating>>)
      modifies this
      ensures file.Some? ==> ratings == Merged(old(ratings), file.value)
      ensures file.None? ==> ratings == old(ratings)
      ensures Login() == old(Login()) && ratingsLoaded == old(ratingsLoaded) && selections == old(selections)
      ensures ratingWidgets == old(ratingWidgets) && showResetConfirmation == old(showResetConfirmation)
      ensures page == old(page)
    {
      if file.Some? {
        MergeSaved(file.value);
      }
    }

    /**
     * Lines 209-215: the first render after login merges the file, if any,
     * once; later renders change nothing.
     */
    method AutoLoad(file: Option<seq<SavedRating>>)
      modifies this
      ensures ratingsLoaded
      ensures !old(ratingsLoaded) && file.Some? ==> ratings == Merged(old(ratings), file.value)
      ensures old(ratingsLoaded) || file.None? ==> ratings == old(ratings)
      ensures Login() == old(Login()) && selections == old(selections)
      ensures ratingWidgets == old(ratingWidgets) && showResetConfirmation == old(showResetConfirmation)
      ensures page == old(page)
    {
      if !ratingsLoaded {
        if file.Some? {
          MergeSaved(file.value);
        }
        ratingsLoaded := true;
      }
    }

    /**
     * The user picks `rating` on a program's radio (line 352); it offers 0 to
     * 3, and only a radio the last render showed can be clicked.
     */
    method SetRatingWidget(pid: ProgramId, rating: int)
      requires pid in ratingWidgets && 0 <= rating <= 3
      modifies this
      ensures ratingWidgets == old(ratingWidgets)[pid := rating]
      ensures Login() == old(Login()) && ratings == old(ratings) && ratingsLoaded == old(ratingsLoaded)
      ensures selections == old(selections) && showResetConfirmation == old(showResetConfirmation)
      ensures page == old(page)
    {
      ratingWidgets := ratingWidgets[pid := rating];
    }

    /**
     * The rating radios of lines 351-354, one per shown program. A radio that
     * already holds a value keeps it; a new one starts at the program's
     * current rating (`index=current_rating`, 0 when unrated). A radio that
     * this run does not render loses its value, as Streamlit discards the
     * state of widgets a run does not show.
     */
    method RenderRatingWidgets(shown: seq<ProgramId>)
      modifies this
      ensures forall pid :: pid in ratingWidgets <==> pid in shown
      ensures forall pid :: pid in shown && pid in old(ratingWidgets) ==> ratingWidgets[pid] == old(ratingWidgets)[pid]
      ensures forall pid :: pid in shown && pid !in old(ratingWidgets) ==> ratingWidgets[pid] == GetOr(ratings, pid, 0)
      ensures RatingsInRange(ratings) && RatingsInRange(old(ratingWidgets)) ==> RatingsInRange(ratingWidgets)
      ensures Login() == old(Login()) && ratings == old(ratings) && ratingsLoaded == old(ratingsLoaded)
      ensures selections == old(selections) && showResetConfirmation == old(showResetConfirmation)
      ensures page == old(page)
    {
      var rendered: map<ProgramId, int> := map[];
      for i := 0 to |shown|
        invariant forall pid :: pid in rendered <==> pid in shown[..i]
        invariant forall pid :: pid in rendered && pid in ratingWidgets ==> rendered[pid] == ratingWidgets[pid]
        invariant forall pid :: pid in rendered && pid !in ratingWidgets ==> rendered[pid] == GetOr(ratings, pid, 0)
      {
        var pid := shown[i];
        assert shown[..i + 1] == shown[..i] + [pid];
        var currentRating := GetOr(ratings, pid, 0);
        var value := if pid in ratingWidgets then ratingWidgets[pid] else currentRating;
        rendered := rendered[pid := value];
      }
      assert shown[..|shown|] == shown;
      ratingWidgets := rendered;
    }

    /**
     * A render of the analysis page (lines 358-396) shows no rating radio,
     * so every radio loses its value; the ratings themselves stay.
     */
    method RenderAnalysisPage()
      modifies this
      ensures ratingWidgets == map[]
      ensures Login() == old(Login()) && ratings == old(ratings) && ratingsLoaded == old(ratingsLoaded)
      ensures selections == old(selections) && showResetConfirmation == old(showResetConfirmation)
      ensures page == old(page)
    {
      ratingWidgets := map[];
    }

    /**
     * Lines 355-356: every shown program takes its widget's value (0 when the
     * widget has none); other programs keep their rating.
     */
    method WriteBackRatings(shown: seq<ProgramId>)
      modifies this
      ensures forall pid :: pid in ratings <==> pid in old(ratings) || pid in shown
      ensures forall pid :: pid in shown ==> ratings[pid] == GetOr(ratingWidgets, pid, 0)
      ensures forall pid :: pid in old(ratings) && pid !in shown ==> ratings[pid] == old(ratings)[pid]
      ensures RatingsInRange(old(ratings)) && RatingsInRange(ratingWidgets) ==> RatingsInRange(ratings)
      ensures Login() == old(Login()) && ratingsLoaded == old(ratingsLoaded) && selections == old(selections)
      ensures ratingWidgets == old(ratingWidgets) && showResetConfirmation == old(showResetConfirmation)
      ensures page == old(page)
    {
      for i := 0 to |shown|
        invariant forall pid :: pid in ratings <==> pid in old(ratings) || pid in shown[..i]
        invariant forall pid :: pid in shown[..i] ==> ratings[pid] == GetOr(ratingWidgets, pid, 0)
        invariant forall pid :: pid in old(ratings) && pid !in shown[..i] ==> ratings[pid] == old(ratings)[pid]
        invariant Login() == old(Login()) && ratingsLoaded == old(ratingsLoaded) && selections == old(selections)
        invariant ratingWidgets == old(ratingWidgets) && showResetConfirmation == old(showResetConfirmation)
        invariant page == old(page)
      {
        var pid := shown[i];
        assert shown[..i + 1] == shown[..i] + [pid];
        ratings := ratings[pid := GetOr(ratingWidgets, pid, 0)];
      }
      assert shown[..|shown|] == shown;
    }

    /**
     * A render of the programs page (lines 340-356): the radios are created,
     * then written back. A shown program takes the value the user picked,
     * and one the user did not touch keeps its rating (0 when it had none);
     * afterwards every shown radio agrees with the rating map.
     */
    method RateShownPrograms(shown: seq<ProgramId>)
      modifies this
      ensures forall pid :: pid in ratings <==> pid in old(ratings) || pid in shown
      ensures forall pid :: pid in shown && pid in old(ratingWidgets) ==> ratings[pid] == old(ratingWidgets)[pid]
      ensures forall pid :: pid in shown && pid !in old(ratingWidgets) && pid in old(ratings) ==> ratings[pid] == old(ratings)[pid]
      ensures forall pid :: pid in shown && pid !in old(ratingWidgets) && pid !in old(ratings) ==> ratings[pid] == 0
      ensures forall pid :: pid in old(ratings) && pid !in shown ==> ratings[pid] == old(ratings)[pid]
      ensures forall pid :: pid in ratingWidgets <==> pid in shown
      ensures forall pid :: pid in shown ==> ratingWidgets[pid] == ratings[pid]
      ensures RatingsInRange(old(ratings)) && RatingsInRange(old(ratingWidgets)) ==> RatingsInRange(ratings)
      ensures Login() == old(Login()) && ratingsLoaded == old(ratingsLoaded) && selections == old(selections)
      ensures showResetConfirmation == old(showResetConfirmation) && page == old(page)
    {
      RenderRatingWidgets(shown);
      WriteBackRatings(shown);
    }

    /** The "reset everything" button (lines 264-265) asks for confirmation. */
    method RequestReset()
      modifies this
      ensures showResetConfirmation
      ensures Login() == old(Login()) && ratings == old(ratings) && ratingsLoaded == old(ratingsLoaded)
      ensures selections == old(selections) && ratingWidgets == old(ratingWidgets) && page == old(page)
    {
      showResetConfirmation := true;
    }

    /** "Cancel" (lines 292-293) withdraws the question. */
    method CancelReset()
      modifies this
      ensures !showResetConfirmation
      ensures Login() == old(Login()) && ratings == old(ratings) && ratingsLoaded == old(ratingsLoaded)
      ensures selections == old(selections) && ratingWidgets == old(ratingWidgets) && page == old(page)
    {
      showResetConfirmation := false;
    }

    /**
     * "Yes, reset" (lines 272-290): the whole dictionary is cleared and the
     * login restored; ratings are empty and marked loaded, so the saved file
     * is not merged back. The next render then re-creates empty selections
     * and the programs page.
     */
    method ConfirmReset()
      modifies this
      ensures Login() == old(Login())
      ensures ratings == map[] && ratingsLoaded
      ensures selections == NoSelections && ratingWidgets == map[]
      ensures !showResetConfirmation && page == Programs
    {
      var keptLoggedIn, keptEmail, keptNome := loggedIn, userEmail, userNome;
      loggedIn, userEmail, userNome := false, "", "";
      ratings, ratingsLoaded := map[], false;
      selections, ratingWidgets := NoSelections, map[];
      showResetConfirmation, page := false, Programs;
      loggedIn, userEmail, userNome := keptLoggedIn, keptEmail, keptNome;
      ratings := map[];
      ratingsLoaded := true;
    }

    /** "Sign out" (lines 219-221): the whole dictionary is cleared, login included. */
    method Logout()
      modifies this
      ensures !loggedIn && userEmail == "" && userNome == ""
      ensures ratings == map[] && !ratingsLoaded
      ensures selections == NoSelections && ratingWidgets == map[]
      ensures !showResetConfirmation && page == Programs
    {
      loggedIn, userEmail, userNome := false, "", "";
      ratings, ratingsLoaded := map[], false;
      selections, ratingWidgets := NoSelections, map[];
      showResetConfirmation, page := false, Programs;
    }

    /** The two page buttons (lines 250-254). */
    method ShowPage(p: Page)
      modifies this
      ensures page == p
      ensures Login() == old(Login()) && ratings == old(ratings) && ratingsLoaded == old(ratingsLoaded)
      ensures selections == old(selections) && ratingWidgets == old(ratingWidgets)
      ensures showResetConfirmation == old(showResetConfirmation)
    {
      page := p;
    }
  }

  /**
   * Ratings loaded from the file survive the programs page: a program the
   * user does not touch is written back with its loaded rating.
   */
  method LoadThenShowKeepsRating(email: string, nome: string) returns (session: SessionState)
    ensures "P2" in session.ratings && session.ratings["P2"] == 2
    ensures session.ratingWidgets == map["P2" := 2]
  {
    session := new SessionState(email, nome);
    session.AutoLoad(Some([SavedRating("P2", 2)]));
    session.RateShownPrograms(["P2"]);
  }

  /**
   * A rating picked on the programs page survives a visit to the analysis
   * page, where the radios lose their values, and the return to the
   * programs page, where they are re-created from the ratings.
   */
  method RatingSurvivesAnalysis(email: string, nome: string, pid: ProgramId) returns (session: SessionState)
    ensures pid in session.ratings && session.ratings[pid] == 3
    ensures session.ratingWidgets == map[pid := 3]
  {
    session := new SessionState(email, nome);
    session.RenderRatingWidgets([pid]);
    session.SetRatingWidget(pid, 3);
    session.RateShownPrograms([pid]);
    assert pid in session.ratings && session.ratings[pid] == 3;
    session.ShowPage(Analysis);
    session.RenderAnalysisPage();
    session.ShowPage(Programs);
    session.RateShownPrograms([pid]);
  }

  /**
   * A confirmed reset after any sequence of loads, ratings and filter
   * changes keeps the user signed in, and the next automatic load leaves
   * the ratings empty.
   */
  method ResetKeepsLogin(email: string, nome: string, file: Option<seq<SavedRating>>)
    returns (session: SessionState)
    ensures session.Login() == (true, email, nome)
    ensures session.ratings == map[] && session.ratingsLoaded
  {
    session := new SessionState(email, nome);
    session.AutoLoad(file);
    session.RateShownPrograms(["P1"]);
    session.SetRatingWidget("P1", 3);
    session.RateShownPrograms(["P1"]);
    session.RequestReset();
    session.ConfirmReset();
    session.AutoLoad(file);
  }
}
