/** The sandboxed renderer: the argument list handed to the sandbox launcher
    (`buildArgs`) and how a failed run is reported (`GeneratePDF`). The
    launcher and the renderer themselves are external; a run is an oracle
    from the command line to its output, its standard error and its exit
    error. */
module Runner {
  import opened Wrappers
  import opened GoStrings
  import opened AppErrors

  newtype byte = b: int | 0 <= b < 256

  /** Where the default stylesheet appears inside the sandbox. */
  const SandboxDefaultStylesheetPath := "/defaults/default.css"

  /** Bound in place of the configured default stylesheet when none is set. */
  const FallbackStylesheetPath := "assets/default.css"

  /** Number of arguments before the attachment flags. */
  const PrefixLength := 38

  /** The runner's configuration: the launcher, the renderer, and the host
      path of the default stylesheet. */
  datatype WeasyprintRunner = WeasyprintRunner(bwrapPath: string, weasyprintPath: string, defaultStylesheetPath: string)

  /** The host file bound as the sandbox's default stylesheet. */
  function StylesheetSource(r: WeasyprintRunner): (p: string)
    ensures p != ""
    ensures r.defaultStylesheetPath != "" ==> p == r.defaultStylesheetPath
    ensures r.defaultStylesheetPath == "" ==> p == FallbackStylesheetPath
  {
    if r.defaultStylesheetPath == "" then FallbackStylesheetPath else r.defaultStylesheetPath
  }

  /** The fixed part of the command line: isolation flags, read-only binds,
      working directory, environment, then the renderer invocation. */
  function SandboxPrefix(r: WeasyprintRunner, workDir: string, html: string, css: string): (p: seq<string>)
    ensures |p| == PrefixLength
  {
    [ "--unshare-all",
      "--new-session",
      "--clearenv",

      "--ro-bind", "/usr", "/usr",
      "--ro-bind", "/lib", "/lib",
      "--ro-bind", "/lib64", "/lib64",
      "--ro-bind", "/bin", "/bin",
      "--ro-bind", "/etc/fonts", "/etc/fonts",
      "--ro-bind", "/var/cache/fontconfig", "/var/cache/fontconfig",

      "--ro-bind", StylesheetSource(r), SandboxDefaultStylesheetPath,
      "--ro-bind", workDir, "/workspace",
      "--chdir", "/workspace",
      "--setenv", "PATH", "/usr/local/bin:/usr/bin",
      "--",
      r.weasyprintPath,
      html,
      "-",
      "--stylesheet",
      css ]
  }

  /** One `--attachment` flag per attachment, in order. */
  function AttachmentArgs(attachments: seq<string>): seq<string> {
    if attachments == [] then []
    else AttachmentArgs(attachments[..|attachments| - 1]) + ["--attachment", attachments[|attachments| - 1]]
  }

  /** The full command line given to the sandbox launcher. */
  function SandboxArgs(r: WeasyprintRunner, workDir: string, html: string, css: string,
                       attachments: seq<string>): seq<string>
  {
    SandboxPrefix(r, workDir, html, css) + AttachmentArgs(attachments)
  }

  /** The attachment flags come in pairs: flag, then the attachment, in the
      order given. */
  lemma {:induction false} AttachmentArgsAt(attachments: seq<string>)
    ensures |AttachmentArgs(attachments)| == 2 * |attachments|
    ensures forall i :: 0 <= i < |attachments| ==>
      AttachmentArgs(attachments)[2 * i] == "--attachment" && AttachmentArgs(attachments)[2 * i + 1] == attachments[i]
  {
    if attachments != [] {
      var init := attachments[..|attachments| - 1];
      AttachmentArgsAt(init);
      forall i | 0 <= i < |attachments| - 1
        ensures AttachmentArgs(attachments)[2 * i] == "--attachment" && AttachmentArgs(attachments)[2 * i + 1] == attachments[i]
      {
        assert init[i] == attachments[i];
      }
    }
  }

  /** `buildArgs`: the fixed prefix, extended by a loop with one flag pair
      per attachment. */
  method BuildArgs(r: WeasyprintRunner, workDir: string, html: string, css: string,
                   attachments: seq<string>) returns (args: seq<string>)
    ensures args == SandboxArgs(r, workDir, html, css, attachments)
    ensures |args| == PrefixLength + 2 * |attachments|
    ensures forall i :: 0 <= i < |attachments| ==>
      args[PrefixLength + 2 * i] == "--attachment" && args[PrefixLength + 2 * i + 1] == attachments[i]
  {
    var defaultStylesheetPath := r.defaultStylesheetPath;
    if defaultStylesheetPath == "" {
      defaultStylesheetPath := FallbackStylesheetPath;
    }

    args := [
      "--unshare-all",
      "--new-session",
      "--clearenv",

      "--ro-bind", "/usr", "/usr",
      "--ro-bind", "/lib", "/lib",
      "--ro-bind", "/lib64", "/lib64",
      "--ro-bind", "/bin", "/bin",
      "--ro-bind", "/etc/fonts", "/etc/fonts",
      "--ro-bind", "/var/cache/fontconfig", "/var/cache/fontconfig",

      "--ro-bind", defaultStylesheetPath, SandboxDefaultStylesheetPath,
      "--ro-bind", workDir, "/workspace",
      "--chdir", "/workspace",
      "--setenv", "PATH", "/usr/local/bin:/usr/bin",
      "--",
      r.weasyprintPath,
      html,
      "-",
      "--stylesheet",
      css
    ];

    for i := 0 to |attachments|
      invariant args == SandboxPrefix(r, workDir, html, css) + AttachmentArgs(attachments[..i])
    {
      assert attachments[..i + 1][..i] == attachments[..i];
      args := args + ["--attachment", attachments[i]];
    }
    assert attachments[..|attachments|] == attachments;
    AttachmentArgsAt(attachments);
  }

  /** The shape of the sandbox: isolation first, the default stylesheet
      bound read-only to its fixed path, the workspace bound read-only to
      `/workspace` and entered at once, and `--` before the renderer, the
      HTML file, standard output and the stylesheet. */
  lemma SandboxShape(r: WeasyprintRunner, workDir: string, html: string, css: string, attachments: seq<string>)
    ensures |SandboxArgs(r, workDir, html, css, attachments)| == PrefixLength + 2 * |attachments|
    ensures SandboxArgs(r, workDir, html, css, attachments)[..3] == ["--unshare-all", "--new-session", "--clearenv"]
    ensures SandboxArgs(r, workDir, html, css, attachments)[21..24] ==
            ["--ro-bind", StylesheetSource(r), SandboxDefaultStylesheetPath]
    ensures SandboxArgs(r, workDir, html, css, attachments)[24..29] ==
            ["--ro-bind", workDir, "/workspace", "--chdir", "/workspace"]
    ensures SandboxArgs(r, workDir, html, css, attachments)[32..38] ==
            ["--", r.weasyprintPath, html, "-", "--stylesheet", css]
  {
    AttachmentArgsAt(attachments);
    var a, p := SandboxArgs(r, workDir, html, css, attachments), SandboxPrefix(r, workDir, html, css);
    assert p[0] == "--unshare-all" && p[1] == "--new-session" && p[2] == "--clearenv";
    assert a[..3] == p[..3];
    assert a[21..24] == p[21..24];
    assert p[24..29] == ["--ro-bind", workDir, "/workspace", "--chdir", "/workspace"];
    assert a[24..29] == p[24..29];
    assert a[32..38] == p[32..38];
  }

  /** The positions that carry caller-supplied values. */
  predicate DesignatedPosition(i: int) {
    i == 22 || i == 25 || i == 33 || i == 34 || i == 37
  }

  /** Caller-supplied values appear only at their designated positions:
      the stylesheet source at 22, the workspace at 25, the renderer at 33,
      the HTML file at 34 and the stylesheet at 37. Every other position of
      the prefix is the same for all inputs. */
  lemma InputsOnlyAtDesignatedPositions(r1: WeasyprintRunner, w1: string, h1: string, c1: string, a1: seq<string>,
                                        r2: WeasyprintRunner, w2: string, h2: string, c2: string, a2: seq<string>)
    ensures var x := SandboxArgs(r1, w1, h1, c1, a1);
      x[22] == StylesheetSource(r1) && x[25] == w1 && x[33] == r1.weasyprintPath && x[34] == h1 && x[37] == c1
    ensures forall i :: 0 <= i < PrefixLength && !DesignatedPosition(i) ==>
      SandboxArgs(r1, w1, h1, c1, a1)[i] == SandboxArgs(r2, w2, h2, c2, a2)[i]
  {
    var x, y := SandboxArgs(r1, w1, h1, c1, a1), SandboxArgs(r2, w2, h2, c2, a2);
    var p, q := SandboxPrefix(r1, w1, h1, c1), SandboxPrefix(r2, w2, h2, c2);
    assert forall i :: 0 <= i < PrefixLength ==> x[i] == p[i] && y[i] == q[i];
  }

  /** What a sandboxed run produced: standard output, standard error and
      the error of `cmd.Run`. */
  datatype ExecOutcome = ExecOutcome(stdout: seq<byte>, stderr: string, err: Option<Err>)

  /** What a renderer wrote to the output and the error it returned. */
  datatype RunOutcome = RunOutcome(output: seq<byte>, err: Option<Err>)

  /** `GeneratePDF`: runs the launcher with `BuildArgs`' command line; the
      output goes to the caller unchanged, and a failed run is reported with
      the run error kept on the chain and the trimmed standard error
      appended. */
  function GeneratePDF(r: WeasyprintRunner, workDir: string, html: string, css: string, attachments: seq<string>,
                       exec: (string, seq<string>) -> ExecOutcome): (o: RunOutcome)
    ensures var run := exec(r.bwrapPath, SandboxArgs(r, workDir, html, css, attachments));
      o.output == run.stdout &&
      (o.err.None? <==> run.err.None?) &&
      (o.err.Some? ==>
        Chain(o.err.value)[1..] == Chain(run.err.value) &&
        Text(o.err.value) == "weasyprint failed: " + Text(run.err.value) + ": " + TrimSpace(run.stderr))
  {
    var run := exec(r.bwrapPath, SandboxArgs(r, workDir, html, css, attachments));
    match run.err
    case Some(e) => RunOutcome(run.stdout, Some(Wrapped("weasyprint failed: ", e, ": " + TrimSpace(run.stderr))))
    case None => RunOutcome(run.stdout, None)
  }
}
