/** The cop applied to concrete calls, with the spans a parser gives them. */
module NoFileutilsRmrfScenarios {
  import opened Wrappers
  import opened Ast
  import opened Corrector
  import opened CallSyntax
  import opened NoFileutilsRmrf

  // Each expected correction is first spelled out as a joined call, which
  // keeps the solver off the literal strings.

  lemma TmpBuildText()
    ensures Join(CallText("FileUtils", "rm_r", "\"tmp/build\"")) == "FileUtils.rm_r(\"tmp/build\")"
  {
  }

  lemma CorrectedLineText()
    ensures "x; " + "FileUtils.rm_r(\"tmp/build\")" + "\n" == "x; FileUtils.rm_r(\"tmp/build\")\n"
  {
  }

  /** `FileUtils.rm_rf("tmp/build")` becomes `FileUtils.rm_r("tmp/build")`. */
  lemma RmRfScenario()
    ensures var buf := "x; FileUtils.rm_rf(\"tmp/build\")\n";
            var n := Send(Some(Const(None, "FileUtils", Span(3, 12))), "rm_rf",
                          [Other("str", Span(19, 30))], Span(3, 31));
            OnSend(buf, n) == Offense(Some(Edit(Span(3, 31), "FileUtils.rm_r(\"tmp/build\")")))
  {
    var buf := "x; FileUtils.rm_rf(\"tmp/build\")\n";
    var n := Send(Some(Const(None, "FileUtils", Span(3, 12))), "rm_rf",
                  [Other("str", Span(19, 30))], Span(3, 31));
    TmpBuildText();
    assert Source(buf, n.args[0]) == "\"tmp/build\"";
    assert FileutilsRmRF(n);
    assert Replacement("rm_rf", "\"tmp/build\"") == "FileUtils.rm_r(\"tmp/build\")";
    assert OnSend(buf, n) == Offense(Some(Edit(n.span, Replacement("rm_rf", "\"tmp/build\""))));
  }

  /** Applying that correction rewrites the call and keeps the rest of the line. */
  lemma RmRfCorrectedLine()
    ensures Replace("x; FileUtils.rm_rf(\"tmp/build\")\n", Span(3, 31), "FileUtils.rm_r(\"tmp/build\")")
            == "x; FileUtils.rm_r(\"tmp/build\")\n"
  {
    var buf := "x; FileUtils.rm_rf(\"tmp/build\")\n";
    var text := "FileUtils.rm_r(\"tmp/build\")";
    assert Replace(buf, Span(3, 31), text) == buf[..3] + text + buf[31..];
    assert buf[..3] == "x; ";
    assert buf[31..] == "\n";
    CorrectedLineText();
  }

  lemma DirText()
    ensures Join(CallText("FileUtils", "rm_r", "dir")) == "FileUtils.rm_r(dir)"
  {
  }

  /** `Pathname.rmtree(dir)` becomes `FileUtils.rm_r(dir)`. */
  lemma PathnameRmtreeScenario()
    ensures var buf := "Pathname.rmtree(dir)";
            var n := Send(Some(Const(None, "Pathname", Span(0, 8))), "rmtree",
                          [Other("lvar", Span(16, 19))], Span(0, 20));
            OnSend(buf, n) == Offense(Some(Edit(Span(0, 20), "FileUtils.rm_r(dir)")))
  {
    var buf := "Pathname.rmtree(dir)";
    var n := Send(Some(Const(None, "Pathname", Span(0, 8))), "rmtree",
                  [Other("lvar", Span(16, 19))], Span(0, 20));
    DirText();
    assert Source(buf, n.args[0]) == "dir";
    assert PathnameRmtree(n);
    assert Replacement("rmtree", "dir") == "FileUtils.rm_r(dir)";
    assert OnSend(buf, n) == Offense(Some(Edit(n.span, Replacement("rmtree", "dir"))));
  }

  lemma PathText()
    ensures Join(CallText("FileUtils", "rm", "path")) == "FileUtils.rm(path)"
  {
  }

  /** `::FileUtils.rm_f(path, verbose: true)` becomes `FileUtils.rm(path)`. */
  lemma RootedRmFScenario()
    ensures var buf := "::FileUtils.rm_f(path, verbose: true)";
            var n := Send(Some(Const(Some(Cbase(Span(0, 2))), "FileUtils", Span(0, 11))), "rm_f",
                          [Other("lvar", Span(17, 21)), Other("hash", Span(23, 36))], Span(0, 37));
            OnSend(buf, n) == Offense(Some(Edit(Span(0, 37), "FileUtils.rm(path)")))
  {
    var buf := "::FileUtils.rm_f(path, verbose: true)";
    var n := Send(Some(Const(Some(Cbase(Span(0, 2))), "FileUtils", Span(0, 11))), "rm_f",
                  [Other("lvar", Span(17, 21)), Other("hash", Span(23, 36))], Span(0, 37));
    PathText();
    assert Source(buf, n.args[0]) == "path";
    assert FileutilsRmRF(n);
    assert Replacement("rm_f", "path") == "FileUtils.rm(path)";
    assert OnSend(buf, n) == Offense(Some(Edit(n.span, Replacement("rm_f", "path"))));
  }

  /** `FileUtils.cp_r(src, dst)` is not flagged. */
  lemma CopyScenario()
    ensures var buf := "FileUtils.cp_r(src, dst)";
            var n := Send(Some(Const(None, "FileUtils", Span(0, 9))), "cp_r",
                          [Other("lvar", Span(15, 18)), Other("lvar", Span(20, 23))], Span(0, 24));
            OnSend(buf, n) == NoOffense
  {
    assert "cp_r" !in FileUtilsMethods;
  }

  /** `FileUtils.rm_rf` with no arguments is flagged but has no correction. */
  lemma NoArgumentScenario()
    ensures var n := Send(Some(Const(None, "FileUtils", Span(0, 9))), "rm_rf", [], Span(0, 15));
            OnSend("FileUtils.rm_rf", n) == Offense(None)
  {
  }
}
