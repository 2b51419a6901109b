/** The control flow of `main` in main.go: fetch the page, extract the title,
    extract the payments line, print both; the first stage that fails is
    logged and ends the run. The network fetch is an input: either the page
    as goquery sees it or the transport error it ended with. */
module Program {
  import opened Outcomes
  import opened Whitespace
  import opened Extract

  /** What the two selectors find in the fetched document. */
  datatype Page = Page(heading: string, cells: Option<seq<string>>)

  datatype Stage = Fetch | Title | Payments

  /** What `getData` hands to `main`: the document as the two selectors see
      it, or the text of the error that building, sending or parsing the
      request ended with. `getData` returns no other error. */
  datatype Fetched = Loaded(page: Page) | FetchFailed(reason: string)

  /** What a run shows: the text written to standard output (the heading, a
      newline, the payments line and a newline), or one log message. */
  datatype Outcome = Printed(stdout: string) | Logged(stage: Stage, message: string)

  /** The stages that ran, in order, and what the run showed. */
  datatype Run = Run(ran: seq<Stage>, outcome: Outcome)

  const AllStages: seq<Stage> := [Fetch, Title, Payments]

  function LogPrefix(stage: Stage): string
  {
    match stage
    case Fetch => "Не удается установить соединение:"
    case Title => "Ошибка получения названия страницы:"
    case Payments => "Ошибка получения информации о выплатах:"
  }

  /** `log.Println(prefix, err)`: the operands separated by one space, then a
      newline. The timestamp the logger puts in front is not modelled. */
  function LogMessage(stage: Stage, e: Failure): string
  {
    LogPrefix(stage) + " " + e.Text() + "\n"
  }

  /** One run of `main`. Each stage runs only when every earlier one
      succeeded, and the output `title + "\n" + payments + "\n"` appears only
      when all three did. */
  function Execute(fetched: Fetched): (run: Run)
    ensures 1 <= |run.ran| <= |AllStages| && run.ran == AllStages[..|run.ran|]
    ensures (Title in run.ran) <==> fetched.Loaded?
    ensures (Payments in run.ran) <==> fetched.Loaded? && fetched.page.heading != ""
    ensures run.outcome.Printed?
        <==> fetched.Loaded? && fetched.page.heading != "" && fetched.page.cells.Some?
    ensures run.outcome.Printed? ==>
        var cells := fetched.page.cells.value;
        run.outcome.stdout == fetched.page.heading + "\n"
          + (if PaymentsCell < |cells| then Collapse(cells[PaymentsCell]) else "") + "\n"
    ensures run.outcome.Logged? ==> run.outcome.stage == run.ran[|run.ran| - 1]
    ensures fetched.FetchFailed? ==>
        run.outcome == Logged(Fetch, LogMessage(Fetch, Transport(fetched.reason)))
    ensures fetched.Loaded? && fetched.page.heading == "" ==>
        run.outcome == Logged(Title, LogMessage(Title, TitleNotFound))
    ensures fetched.Loaded? && fetched.page.heading != "" && fetched.page.cells.None? ==>
        run.outcome == Logged(Payments, LogMessage(Payments, PaymentsNotFound))
  {
    match fetched
    case FetchFailed(reason) => Run([Fetch], Logged(Fetch, LogMessage(Fetch, Transport(reason))))
    case Loaded(page) =>
      match GetTitle(page.heading)
      case Err(e) => Run([Fetch, Title], Logged(Title, LogMessage(Title, e)))
      case Ok(title) =>
        match PaymentsInfo(page.cells)
        case Err(e) => Run(AllStages, Logged(Payments, LogMessage(Payments, e)))
        case Ok(payments) => Run(AllStages, Printed(title + "\n" + payments + "\n"))
  }

  /** When the run prints, the output is the non-empty heading exactly as
      found, a newline, a collapsed payments line that holds no newline, and
      a final newline. */
  lemma PrintedLines(fetched: Fetched)
    requires Execute(fetched).outcome.Printed?
    ensures var out := Execute(fetched).outcome.stdout;
      var title := fetched.page.heading;
      && |title| + 2 <= |out|
      && var payments := out[|title| + 1 .. |out| - 1];
      && out == title + "\n" + payments + "\n"
      && title != ""
      && IsCollapsed(payments)
      && '\n' !in payments
  {
    var out := Execute(fetched).outcome.stdout;
    var title := fetched.page.heading;
    var payments := PaymentsInfo(fetched.page.cells).value;
    PaymentsResultIsCollapsed(fetched.page.cells);
    assert out == title + "\n" + payments + "\n";
    assert out[|title| + 1 .. |out| - 1] == payments;
  }

  /** An end-to-end run over a page whose heading is "Май 2024" and whose
      eleventh cell holds runs of spaces, a newline and a tab. */
  lemma ExecuteExample(cells: seq<string>)
    requires |cells| == 11 && cells[10] == "  Филиал\n\tМосква   12.05.2024  "
    ensures Execute(Loaded(Page("Май 2024", Some(cells)))).outcome
        == Printed("Май 2024" + "\n" + "Филиал Москва 12.05.2024" + "\n")
  {
    var payments := "Филиал Москва 12.05.2024";
    assert Collapse(cells[PaymentsCell]) == payments by { CollapseExample(cells[PaymentsCell]); }
    assert Execute(Loaded(Page("Май 2024", Some(cells)))).outcome == Printed("Май 2024" + "\n" + payments + "\n");
  }
}
