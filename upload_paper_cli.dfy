/**
 * upload_paper.py's main: the stride-two option parser. It reads the
 * arguments after the PDF path in (flag, value) pairs; a final token without
 * a partner is ignored, and a pair whose flag it does not know is skipped.
 */
module UploadPaperCli {
  import opened Wrappers
  import opened CliOptions

  datatype PaperOptions = PaperOptions(title: Option<string>, field: Option<string>, topic: Option<string>, doi: Option<string>)

  /** The pairs the loop reads: (args[0], args[1]), (args[2], args[3]), … */
  function Pairs(args: seq<string>): (steps: seq<Step>)
    ensures 2 * |steps| <= |args| <= 2 * |steps| + 1
  {
    if |args| < 2 then [] else [Assign(args[0], args[1])] + Pairs(args[2..])
  }

  /** The pairs cover every argument except a trailing unpaired one. */
  lemma {:induction false} PairsConsume(args: seq<string>)
    ensures Consumed(Pairs(args)) == args[..2 * |Pairs(args)|]
  {
    if |args| < 2 {
      assert Pairs(args) == [];
    } else {
      var rest := args[2..];
      var head, tail := Assign(args[0], args[1]), Pairs(rest);
      assert Pairs(args) == [head] + tail;
      PairsConsume(rest);
      ConsumedCons(head, tail);
      var m := 2 * |tail|;
      assert args[..m + 2] == args[..2] + rest[..m];
      assert args[..2] == StepTokens(head);
    }
  }

  /** The k-th pair is the flag at index 2k with the value after it. */
  lemma {:induction false} PairIndex(args: seq<string>, k: nat)
    requires 2 * k + 1 < |args|
    ensures k < |Pairs(args)|
    ensures Pairs(args)[k] == Assign(args[2 * k], args[2 * k + 1])
  {
    if k > 0 {
      var rest := args[2..];
      PairIndex(rest, k - 1);
      assert rest[2 * (k - 1)] == args[2 * k] && rest[2 * (k - 1) + 1] == args[2 * k + 1];
    }
  }

  /** The pair the loop reads at argv index 2 + 2 * n. */
  lemma PairAt(argv: seq<string>, n: nat)
    requires 2 + 2 * n + 1 < |argv|
    ensures n < |Pairs(argv[2..])|
    ensures Pairs(argv[2..])[n] == Assign(argv[2 + 2 * n], argv[2 + 2 * n + 1])
  {
    var args := argv[2..];
    PairIndex(args, n);
    assert args[2 * n] == argv[2 + 2 * n];
    assert args[2 * n + 1] == argv[2 + 2 * n + 1];
  }

  /** The options a run of pairs leaves: for each known flag, the value of its last pair. */
  function OptionsOf(steps: seq<Step>): PaperOptions {
    PaperOptions(LastAssigned(steps, "--title"), LastAssigned(steps, "--field"),
                 LastAssigned(steps, "--topic"), LastAssigned(steps, "--doi"))
  }

  /** The loop body's effect of one pair on the four option variables. */
  function Apply(opts: PaperOptions, arg: string, value: string): PaperOptions {
    if arg == "--title" then opts.(title := Some(value))
    else if arg == "--field" then opts.(field := Some(value))
    else if arg == "--topic" then opts.(topic := Some(value))
    else if arg == "--doi" then opts.(doi := Some(value))
    else opts
  }

  lemma OptionsSnoc(steps: seq<Step>, arg: string, value: string)
    ensures OptionsOf(steps + [Assign(arg, value)]) == Apply(OptionsOf(steps), arg, value)
  {
    var s := Assign(arg, value);
    LastAssignedSnoc(steps, s, "--title");
    LastAssignedSnoc(steps, s, "--field");
    LastAssignedSnoc(steps, s, "--topic");
    LastAssignedSnoc(steps, s, "--doi");
  }

  /**
   * Parses argv (argv[0] the script, argv[1] the PDF path; main has already
   * stopped with a usage message when argv is shorter). Each known flag ends
   * up with the value of its last pair; flags never given stay None.
   */
  method ParseOptions(argv: seq<string>) returns (opts: PaperOptions)
    requires |argv| >= 2
    ensures opts.title == LastAssigned(Pairs(argv[2..]), "--title")
    ensures opts.field == LastAssigned(Pairs(argv[2..]), "--field")
    ensures opts.topic == LastAssigned(Pairs(argv[2..]), "--topic")
    ensures opts.doi == LastAssigned(Pairs(argv[2..]), "--doi")
  {
    var title, field, topic, doi: Option<string> := None, None, None, None;
    ghost var pairs := Pairs(argv[2..]);
    ghost var n: nat := 0;
    var i := 2;
    while i < |argv|
      invariant n <= |pairs|
      invariant i == 2 + 2 * n || (i == |argv| + 1 && n == |pairs|)
      invariant PaperOptions(title, field, topic, doi) == OptionsOf(pairs[..n])
    {
      if i + 1 < |argv| {
        var arg := argv[i];
        var value := argv[i + 1];
        PairAt(argv, n);
        assert pairs[..n + 1] == pairs[..n] + [Assign(arg, value)];
        OptionsSnoc(pairs[..n], arg, value);
        ghost var before := PaperOptions(title, field, topic, doi);
        if arg == "--title" {
          title := Some(value);
        } else if arg == "--field" {
          field := Some(value);
        } else if arg == "--topic" {
          topic := Some(value);
        } else if arg == "--doi" {
          doi := Some(value);
        }
        assert PaperOptions(title, field, topic, doi) == Apply(before, arg, value);
        n := n + 1;
      }
      i := i + 2;
    }
    assert pairs[..n] == pairs;
    opts := PaperOptions(title, field, topic, doi);
  }
}
