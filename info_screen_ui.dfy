/**
 * InfoScreenUi: an info screen that shows one page at a time. The Next button (or the
 * ResumeGame / Next menu action of a controller) turns the page, or asks the launcher to
 * close the screen on the last page; Back turns back. Every time a page is drawn, the menu
 * actions offered on the controllers are adjusted through the SharedControllerState.
 */
module InfoScreenUis {
  import opened SharedControllerStates

  /** How drawing a page ended: normally, or with an IndexOutOfRangeException from the page array. */
  datatype Outcome = Done | IndexOutOfRange

  /** The pairs DrawContent hands to EnableMenuActions for `page` of `pageCount` pages. */
  function DrawPairs(page: int, pageCount: nat): seq<(MenuAction, bool)>
  {
    var next := page + 1 < pageCount;
    [(ResumeGame, !next), (Next, next), (Back, page > 0)]
  }

  /** The pairs OnClose hands to EnableMenuActions. */
  function ClosePairs(): seq<(MenuAction, bool)>
  {
    [(ResumeGame, false), (Next, false), (Back, false)]
  }

  /**
   * After a page is drawn, exactly one of Next and ResumeGame is offered (Next iff there is a
   * next page), Back is offered iff the page is not the first, and no other action changes.
   */
  lemma {:induction false} DrawOffersNextOrResume(enabled: set<MenuAction>, page: int, pageCount: nat)
    ensures var r := ApplyPairs(enabled, DrawPairs(page, pageCount));
      (Next in r <==> page + 1 < pageCount) &&
      (ResumeGame in r <==> page + 1 >= pageCount) &&
      (Back in r <==> page > 0) &&
      forall a :: a != Next && a != ResumeGame && a != Back ==> (a in r <==> a in enabled)
  {
    var pairs := DrawPairs(page, pageCount);
    LastPairWins(enabled, pairs, 0);
    LastPairWins(enabled, pairs, 1);
    LastPairWins(enabled, pairs, 2);
  }

  /** Closing withdraws ResumeGame, Next and Back and leaves every other action as it was. */
  lemma {:induction false} CloseWithdrawsNavigation(enabled: set<MenuAction>)
    ensures var r := ApplyPairs(enabled, ClosePairs());
      ResumeGame !in r && Next !in r && Back !in r &&
      forall a :: a != Next && a != ResumeGame && a != Back ==> (a in r <==> a in enabled)
  {
    var pairs := ClosePairs();
    LastPairWins(enabled, pairs, 0);
    LastPairWins(enabled, pairs, 1);
    LastPairWins(enabled, pairs, 2);
  }

  class InfoScreenUi {
    /** The number of page prefabs of the content passed to Init. */
    const pageCount: nat
    var currentPage: int
    /** The SharedControllerState singleton. */
    const shared: SharedControllerState
    /** How often InfoScreenLauncher.Close was asked to close this screen. */
    var closeRequests: nat
    var backButtonActive: bool
    var nextButtonText: string
    /** The page whose prefab is shown below the titles, -1 before the first one is drawn. */
    var displayedPage: int

    /** The page is 0 or a page of the content (with no pages at all, only 0). */
    ghost predicate Valid()
      reads this`currentPage
    {
      0 <= currentPage && (currentPage < pageCount || currentPage == 0)
    }

    predicate HasNextPage()
      reads this`currentPage
    {
      currentPage + 1 < pageCount
    }

    predicate HasPreviousPage()
      reads this`currentPage
    {
      currentPage > 0
    }

    /** Init with a content of `pageCount` pages; the page counter starts at 0. */
    constructor (pageCount: nat, shared: SharedControllerState)
      ensures Valid()
      ensures this.pageCount == pageCount && this.shared == shared
      ensures currentPage == 0 && closeRequests == 0 && displayedPage == -1
    {
      this.pageCount := pageCount;
      this.shared := shared;
      currentPage := 0;
      closeRequests := 0;
      backButtonActive := false;
      nextButtonText := "Next";
      displayedPage := -1;
    }

    /**
     * DrawContent: offers Next or ResumeGame and Back on the controllers, shows the back button
     * iff there is a previous page, labels the next button, and shows the current page, which
     * throws when the page is past the content.
     */
    method DrawContent(inputs: seq<ControllerInput>) returns (outcome: Outcome)
      modifies shared`enabledMenuActions, shared`sent, this`backButtonActive, this`nextButtonText, this`displayedPage
      ensures Next in shared.enabledMenuActions <==> HasNextPage()
      ensures ResumeGame in shared.enabledMenuActions <==> !HasNextPage()
      ensures Back in shared.enabledMenuActions <==> HasPreviousPage()
      ensures forall a :: a != Next && a != ResumeGame && a != Back ==>
        (a in shared.enabledMenuActions <==> a in old(shared.enabledMenuActions))
      ensures shared.sent == old(shared.sent) + Broadcast(inputs, MenuActionsUpdate(shared.enabledMenuActions))
      ensures backButtonActive <==> HasPreviousPage()
      ensures nextButtonText == if HasNextPage() then "Next" else "Resume"
      ensures outcome == IndexOutOfRange <==> currentPage < 0 || currentPage >= pageCount
      ensures outcome == Done ==> displayedPage == currentPage
      ensures outcome == IndexOutOfRange ==> displayedPage == old(displayedPage)
    {
      var nextActionAvailable := HasNextPage();
      var resumeActionAvailable := !nextActionAvailable;
      var backActionAvailable := HasPreviousPage();
      DrawOffersNextOrResume(shared.enabledMenuActions, currentPage, pageCount);
      shared.EnableMenuActions([(ResumeGame, resumeActionAvailable), (Next, nextActionAvailable), (Back, backActionAvailable)], inputs);
      backButtonActive := backActionAvailable;
      var text := "Next";
      if !nextActionAvailable {
        text := "Resume";
      }
      nextButtonText := text;
      if currentPage < 0 || currentPage >= pageCount {
        return IndexOutOfRange;
      }
      displayedPage := currentPage;
      return Done;
    }

    /** OnNextButton: the next page when there is one, otherwise a request to close the screen. */
    method OnNextButton(inputs: seq<ControllerInput>) returns (outcome: Outcome)
      requires Valid()
      modifies this, shared`enabledMenuActions, shared`sent
      ensures Valid() && outcome == Done
      ensures old(HasNextPage()) ==>
        currentPage == old(currentPage) + 1 && closeRequests == old(closeRequests) && displayedPage == currentPage &&
        (Next in shared.enabledMenuActions <==> HasNextPage()) &&
        (ResumeGame in shared.enabledMenuActions <==> !HasNextPage()) &&
        Back in shared.enabledMenuActions
      ensures !old(HasNextPage()) ==>
        currentPage == old(currentPage) && closeRequests == old(closeRequests) + 1 &&
        displayedPage == old(displayedPage) &&
        shared.enabledMenuActions == old(shared.enabledMenuActions) && shared.sent == old(shared.sent)
    {
      if HasNextPage() {
        currentPage := currentPage + 1;
        outcome := DrawContent(inputs);
      } else {
        closeRequests := closeRequests + 1;
        outcome := Done;
      }
    }

    /** OnPrevButton: the previous page when there is one, otherwise nothing. */
    method OnPrevButton(inputs: seq<ControllerInput>) returns (outcome: Outcome)
      requires Valid()
      modifies this, shared`enabledMenuActions, shared`sent
      ensures Valid() && outcome == Done
      ensures closeRequests == old(closeRequests)
      ensures old(HasPreviousPage()) ==>
        currentPage == old(currentPage) - 1 && displayedPage == currentPage &&
        Next in shared.enabledMenuActions && ResumeGame !in shared.enabledMenuActions &&
        (Back in shared.enabledMenuActions <==> HasPreviousPage())
      ensures !old(HasPreviousPage()) ==>
        currentPage == old(currentPage) && displayedPage == old(displayedPage) &&
        shared.enabledMenuActions == old(shared.enabledMenuActions) && shared.sent == old(shared.sent)
    {
      if HasPreviousPage() {
        currentPage := currentPage - 1;
        outcome := DrawContent(inputs);
      } else {
        outcome := Done;
      }
    }

    /** OnLaunch: draws the current page, which throws only for a content without pages. */
    method OnLaunch(inputs: seq<ControllerInput>) returns (outcome: Outcome)
      requires Valid()
      modifies shared`enabledMenuActions, shared`sent, this`backButtonActive, this`nextButtonText, this`displayedPage
      ensures outcome == IndexOutOfRange <==> pageCount == 0
      ensures outcome == Done ==> displayedPage == currentPage
      ensures Next in shared.enabledMenuActions <==> HasNextPage()
      ensures ResumeGame in shared.enabledMenuActions <==> !HasNextPage()
      ensures Back in shared.enabledMenuActions <==> HasPreviousPage()
    {
      outcome := DrawContent(inputs);
    }

    /** OnClose: withdraws ResumeGame, Next and Back from the controllers. */
    method OnClose(inputs: seq<ControllerInput>)
      modifies shared`enabledMenuActions, shared`sent
      ensures ResumeGame !in shared.enabledMenuActions && Next !in shared.enabledMenuActions &&
        Back !in shared.enabledMenuActions
      ensures forall a :: a != Next && a != ResumeGame && a != Back ==>
        (a in shared.enabledMenuActions <==> a in old(shared.enabledMenuActions))
      ensures shared.sent == old(shared.sent) + Broadcast(inputs, MenuActionsUpdate(shared.enabledMenuActions))
    {
      CloseWithdrawsNavigation(shared.enabledMenuActions);
      shared.EnableMenuActions([(ResumeGame, false), (Next, false), (Back, false)], inputs);
    }

    /**
     * OnMenuActionTriggered: ResumeGame and Next act as the next button, Back as the back
     * button, and every other action is ignored.
     */
    method OnMenuActionTriggered(action: MenuAction, inputs: seq<ControllerInput>) returns (outcome: Outcome)
      requires Valid()
      modifies this, shared`enabledMenuActions, shared`sent
      ensures Valid() && outcome == Done
      ensures (action == ResumeGame || action == Next) && old(HasNextPage()) ==> currentPage == old(currentPage) + 1
      ensures (action == ResumeGame || action == Next) && !old(HasNextPage()) ==>
        currentPage == old(currentPage) && closeRequests == old(closeRequests) + 1
      ensures action == Back ==> currentPage == (if old(HasPreviousPage()) then old(currentPage) - 1 else old(currentPage))
      ensures action == Back ==> closeRequests == old(closeRequests)
      ensures action != ResumeGame && action != Next && action != Back ==>
        currentPage == old(currentPage) && closeRequests == old(closeRequests) &&
        shared.enabledMenuActions == old(shared.enabledMenuActions) && shared.sent == old(shared.sent)
    {
      match action {
        case ResumeGame =>
          outcome := OnNextButton(inputs);
        case Next =>
          outcome := OnNextButton(inputs);
        case Back =>
          outcome := OnPrevButton(inputs);
        case _ =>
          outcome := Done;
      }
    }
  }
}
