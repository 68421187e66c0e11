/** Finding the n-th template argument in the printed name of a type. */
module Demangle {
  import opened Basics

  // ---------------------------------------------------------------- what is found, for any text

  /** The place of the first comma or closing bracket that belongs to nesting 1, when `s` begins at `nesting`. */
  function ArgumentEnd(s: string, nesting: nat): (e: nat)
    requires nesting >= 1
    ensures e <= |s|
  {
    if s == "" then 0
    else if nesting == 1 && (s[0] == ',' || s[0] == '>') then 0
    else 1 + ArgumentEnd(s[1..], Deeper(s[0], nesting))
  }

  /** The nesting after one more character. */
  function Deeper(ch: char, nesting: nat): (n: nat)
    requires nesting >= 1
    ensures n >= 1
  {
    if ch == '<' then nesting + 1 else if ch == '>' && nesting > 1 then nesting - 1 else nesting
  }

  /** The spaces outside of inner brackets. */
  function TopSpaces(s: string, nesting: nat): (n: nat)
    requires nesting >= 1
    ensures n <= |s|
  {
    if s == "" then 0 else (if nesting == 1 && s[0] == ' ' then 1 else 0) + TopSpaces(s[1..], Deeper(s[0], nesting))
  }

  function NestingAfter(s: string, nesting: nat): (n: nat)
    requires nesting >= 1
    ensures n >= 1
  {
    if s == "" then nesting else NestingAfter(s[1..], Deeper(s[0], nesting))
  }

  /** The `k`-th of the arguments that `s` begins with, if it is there and ended by a comma or a bracket. */
  function Argument(s: string, k: nat): Option<string>
    decreases |s|
  {
    var e := ArgumentEnd(s, 1);
    if e == |s| then None
    else if k == 0 then Some(s[..e])
    else if s[e] == '>' then None
    else Argument(s[e + 1..], k - 1)
  }

  function Find(s: string, ch: char): (i: nat)
    ensures i <= |s| && (i < |s| ==> s[i] == ch)
  {
    if s == "" || s[0] == ch then 0 else 1 + Find(s[1..], ch)
  }

  /** As many characters as the argument has spaces outside of inner brackets are taken off its front. */
  function TemplateArgumentOf(number: nat, sv: string): string {
    var i := Find(sv, '<');
    if i == |sv| then sv
    else
      var argument := Argument(sv[i + 1..], number);
      if argument.None? then sv else argument.value[TopSpaces(argument.value, 1)..]
  }

  // ---------------------------------------------------------------- the scanner

  lemma {:induction false} FindPast(s: string, ch: char, i: nat)
    requires i <= |s| && ch !in s[..i]
    ensures Find(s, ch) == i + Find(s[i..], ch)
  {
    if i > 0 {
      assert s[0] == s[..i][0];
      assert forall k | 0 <= k < i - 1 :: s[1..][k] == s[..i][k + 1];
      FindPast(s[1..], ch, i - 1);
      assert s[1..][i - 1..] == s[i..];
    }
  }

  lemma {:induction false} OneMore(s: string, ch: char, nesting: nat)
    requires nesting >= 1
    ensures NestingAfter(s + [ch], nesting) == Deeper(ch, NestingAfter(s, nesting))
    ensures TopSpaces(s + [ch], nesting) == TopSpaces(s, nesting) + (if NestingAfter(s, nesting) == 1 && ch == ' ' then 1 else 0)
  {
    if s == "" {
    } else {
      assert (s + [ch])[1..] == s[1..] + [ch];
      OneMore(s[1..], ch, Deeper(s[0], nesting));
    }
  }

  /** Inside an argument the search goes on from any place before its end. */
  lemma {:induction false} EndPast(s: string, i: nat, nesting: nat)
    requires nesting >= 1 && i <= ArgumentEnd(s, nesting)
    ensures ArgumentEnd(s, nesting) == i + ArgumentEnd(s[i..], NestingAfter(s[..i], nesting))
  {
    if i == 0 {
    } else {
      EndPast(s[1..], i - 1, Deeper(s[0], nesting));
      assert s[1..][i - 1..] == s[i..];
      assert s[..i][1..] == s[1..][..i - 1];
    }
  }

  /** What the scanner needs to know about the character at `itr` of the argument that begins at `from`. */
  lemma Inside(sv: string, from: nat, itr: nat)
    requires from <= itr < |sv| && itr - from <= ArgumentEnd(sv[from..], 1)
    ensures var n := NestingAfter(sv[from..itr], 1);
      && (n == 1 && (sv[itr] == ',' || sv[itr] == '>') ==>
            ArgumentEnd(sv[from..], 1) == itr - from && sv[from..][..itr - from] == sv[from..itr]
            && sv[from..][itr - from + 1..] == sv[itr + 1..] && sv[from..][itr - from] == sv[itr])
      && (!(n == 1 && (sv[itr] == ',' || sv[itr] == '>')) ==> itr + 1 - from <= ArgumentEnd(sv[from..], 1))
      && NestingAfter(sv[from..itr + 1], 1) == Deeper(sv[itr], n)
      && TopSpaces(sv[from..itr + 1], 1) == TopSpaces(sv[from..itr], 1) + (if n == 1 && sv[itr] == ' ' then 1 else 0)
  {
    var s, i := sv[from..], itr - from;
    EndPast(s, i, 1);
    assert s[i..] == sv[itr..];
    assert s[..i] == sv[from..itr];
    assert sv[from..itr + 1] == sv[from..itr] + [sv[itr]];
    OneMore(sv[from..itr], sv[itr], 1);
  }

  /** The scanner is inside argument `arg`, which begins at `from`. */
  ghost predicate Scanning(sv: string, number: nat, itr: nat, start: nat, arg: nat, nesting: nat, from: nat) {
    && from <= itr <= |sv| && arg <= number
    && Find(sv, '<') < |sv| && Argument(sv[Find(sv, '<') + 1..], number) == Argument(sv[from..], number - arg)
    && itr - from <= ArgumentEnd(sv[from..], 1)
    && nesting == NestingAfter(sv[from..itr], 1)
    && start == from + TopSpaces(sv[from..itr], 1)
  }

  predicate Ends(ch: char, nesting: nat) {
    nesting == 1 && (ch == ',' || ch == '>')
  }

  lemma Enters(sv: string, number: nat, itr: nat)
    requires itr < |sv| && '<' !in sv[..itr] && sv[itr] == '<'
    ensures Scanning(sv, number, itr + 1, itr + 1, 0, 1, itr + 1)
  {
    hide Argument, ArgumentEnd, Find, NestingAfter, TopSpaces;
    FindPast(sv, '<', itr);
    FindAtOnce(sv[itr..], '<');
    OfNothing();
    assert sv[itr + 1..itr + 1] == "";
  }

  lemma FindAtOnce(s: string, ch: char)
    requires s != "" && s[0] == ch
    ensures Find(s, ch) == 0
  {
  }

  lemma Stays(sv: string, number: nat, itr: nat, start: nat, arg: nat, nesting: nat, from: nat)
    requires Scanning(sv, number, itr, start, arg, nesting, from) && itr < |sv| && !Ends(sv[itr], nesting)
    ensures nesting >= 1
    ensures Scanning(sv, number, itr + 1, if nesting == 1 && sv[itr] == ' ' then start + 1 else start, arg,
                     Deeper(sv[itr], nesting), from)
  {
    Inside(sv, from, itr);
  }

  lemma ArgumentSteps(s: string, k: nat)
    requires ArgumentEnd(s, 1) < |s|
    ensures var e := ArgumentEnd(s, 1);
      && (k == 0 ==> Argument(s, k) == Some(s[..e]))
      && (k > 0 && s[e] == '>' ==> Argument(s, k) == None)
      && (k > 0 && s[e] != '>' ==> Argument(s, k) == Argument(s[e + 1..], k - 1))
  {
  }

  /** At the end of an argument: it is the one, or the next one begins, or there is none left. */
  lemma Meets(sv: string, number: nat, itr: nat, start: nat, arg: nat, nesting: nat, from: nat)
    requires Scanning(sv, number, itr, start, arg, nesting, from) && itr < |sv| && Ends(sv[itr], nesting)
    ensures start <= itr
    ensures arg == number ==> TemplateArgumentOf(number, sv) == sv[start..itr]
    ensures arg < number && sv[itr] == '>' ==> TemplateArgumentOf(number, sv) == sv
    ensures arg < number && sv[itr] == ',' ==> Scanning(sv, number, itr + 1, itr + 1, arg + 1, 1, itr + 1)
  {
    hide Find, Argument, ArgumentEnd, NestingAfter, TopSpaces;
    Inside(sv, from, itr);
    ArgumentSteps(sv[from..], number - arg);
    assert sv[from..itr][start - from..] == sv[start..itr];
    assert sv[itr + 1..itr + 1] == "";
    OfNothing();
  }

  lemma OfNothing()
    ensures NestingAfter("", 1) == 1 && TopSpaces("", 1) == 0
  {
  }

  lemma RunsOut(sv: string, number: nat, start: nat, arg: nat, nesting: nat, from: nat)
    requires Scanning(sv, number, |sv|, start, arg, nesting, from)
    ensures TemplateArgumentOf(number, sv) == sv
  {
  }

  lemma NoBracket(sv: string, number: nat)
    requires '<' !in sv
    ensures TemplateArgumentOf(number, sv) == sv
  {
  }

  method TemplateArgument(number: nat, sv: string) returns (r: string)
    ensures r == TemplateArgumentOf(number, sv)
    ensures '<' !in sv ==> r == sv
  {
    hide Scanning, TemplateArgumentOf;
    var start, arg, nesting := 0, 0, 0;
    ghost var from := 0; // where the current argument begins
    for itr := 0 to |sv|
      invariant if nesting == 0 then '<' !in sv[..itr] else '<' in sv
      invariant nesting > 0 ==> Scanning(sv, number, itr, start, arg, nesting, from) && arg <= number
    {
      var ch := sv[itr];
      if nesting == 0 {
        if ch == '<' {
          Enters(sv, number, itr);
          nesting := 1;
          start := itr + 1;
          from := itr + 1;
          arg := 0;
        }
      } else if nesting == 1 {
        if Ends(ch, nesting) {
          Meets(sv, number, itr, start, arg, nesting, from);
        } else {
          Stays(sv, number, itr, start, arg, nesting, from);
        }
        if ch == '<' {
          nesting := nesting + 1;
        } else if ch == ' ' {
          start := start + 1;
        } else if ch == '>' {
          if arg == number {
            return sv[start..itr];
          }
          return sv;
        } else if ch == ',' {
          if arg == number {
            return sv[start..itr];
          }
          start := itr + 1;
          from := itr + 1;
          arg := arg + 1;
        }
      } else {
        Stays(sv, number, itr, start, arg, nesting, from);
        if ch == '<' {
          nesting := nesting + 1;
        } else if ch == '>' {
          nesting := nesting - 1;
        }
      }
    }
    assert sv[..|sv|] == sv;
    if nesting == 0 {
      NoBracket(sv, number);
    } else {
      RunsOut(sv, number, start, arg, nesting, from);
    }
    return sv;
  }

  // ---------------------------------------------------------------- printed names

  /** Brackets match, and there is no comma outside of inner ones. */
  predicate WellNested(s: string, nesting: nat)
    requires nesting >= 1
  {
    if s == "" then nesting == 1
    else if nesting == 1 && (s[0] == ',' || s[0] == '>') then false
    else WellNested(s[1..], Deeper(s[0], nesting))
  }

  function Joined(args: seq<string>): string
    requires args != []
  {
    if |args| == 1 then args[0] else args[0] + "," + Joined(args[1..])
  }

  function Printed(name: string, args: seq<string>, rest: string): string
    requires args != []
  {
    name + "<" + Joined(args) + ">" + rest
  }

  /** A well-nested argument ends where the next comma or bracket stands. */
  lemma {:induction false} EndsThere(s: string, ch: char, rest: string, nesting: nat)
    requires nesting >= 1 && WellNested(s, nesting) && (ch == ',' || ch == '>')
    ensures ArgumentEnd(s + [ch] + rest, nesting) == |s|
  {
    var t := s + [ch] + rest;
    if s == "" {
      assert t[0] == ch;
    } else {
      assert t[0] == s[0] && t[1..] == s[1..] + [ch] + rest;
      EndsThere(s[1..], ch, rest, Deeper(s[0], nesting));
    }
  }

  lemma {:induction false} ArgumentPrinted(args: seq<string>, rest: string, k: nat)
    requires args != [] && forall i | 0 <= i < |args| :: WellNested(args[i], 1)
    ensures Argument(Joined(args) + ">" + rest, k) == if k < |args| then Some(args[k]) else None
  {
    hide Argument, ArgumentEnd, WellNested;
    var s := Joined(args) + ">" + rest;
    var a := args[0];
    if |args| == 1 {
      assert s == a + ['>'] + rest;
      EndsThere(a, '>', rest, 1);
      assert s[..|a|] == a && s[|a|] == '>';
      ArgumentSteps(s, k);
    } else {
      var tail := Joined(args[1..]) + ">" + rest;
      assert s == a + [','] + tail;
      EndsThere(a, ',', tail, 1);
      assert s[..|a|] == a && s[|a|] == ',' && s[|a| + 1..] == tail;
      ArgumentSteps(s, k);
      if k > 0 {
        ArgumentPrinted(args[1..], rest, k - 1);
      }
    }
  }

  function LeadingSpaces(s: string): (n: nat)
    ensures n <= |s| && forall i | 0 <= i < n :: s[i] == ' '
    ensures n < |s| ==> s[n] != ' '
  {
    if s == "" || s[0] != ' ' then 0 else 1 + LeadingSpaces(s[1..])
  }

  /** What remains of an argument without its leading spaces. */
  function Trimmed(s: string): string {
    s[LeadingSpaces(s)..]
  }

  lemma {:induction false} LeadingAreTop(s: string)
    ensures TopSpaces(s, 1) == LeadingSpaces(s) + TopSpaces(Trimmed(s), 1)
  {
    if s != "" && s[0] == ' ' {
      LeadingAreTop(s[1..]);
      assert Trimmed(s) == Trimmed(s[1..]);
    }
  }

  lemma FindInPrinted(name: string, args: seq<string>, rest: string)
    requires args != [] && '<' !in name
    ensures Find(Printed(name, args, rest), '<') == |name|
    ensures Printed(name, args, rest)[|name|] == '<' && Printed(name, args, rest)[|name| + 1..] == Joined(args) + ">" + rest
  {
    var sv := Printed(name, args, rest);
    assert sv == name + ("<" + (Joined(args) + ">" + rest));
    assert sv[..|name|] == name;
    FindPast(sv, '<', |name|);
    assert sv[|name|..][0] == '<';
  }

  /** Asking for an argument that is not there gives the whole text back. */
  lemma BeyondTheLast(name: string, args: seq<string>, rest: string, k: nat)
    requires args != [] && '<' !in name && forall i | 0 <= i < |args| :: WellNested(args[i], 1)
    ensures k >= |args| ==> TemplateArgumentOf(k, Printed(name, args, rest)) == Printed(name, args, rest)
    ensures k < |args| ==> TemplateArgumentOf(k, Printed(name, args, rest)) == args[k][TopSpaces(args[k], 1)..]
  {
    FindInPrinted(name, args, rest);
    ArgumentPrinted(args, rest, k);
  }

  /** No comma or closing bracket ever belongs to nesting 1. */
  predicate NeverEnds(s: string, nesting: nat)
    requires nesting >= 1
  {
    s == "" || (!Ends(s[0], nesting) && NeverEnds(s[1..], Deeper(s[0], nesting)))
  }

  lemma {:induction false} NeverEndsThere(s: string, nesting: nat)
    requires nesting >= 1 && NeverEnds(s, nesting)
    ensures ArgumentEnd(s, nesting) == |s|
  {
    if s != "" {
      NeverEndsThere(s[1..], Deeper(s[0], nesting));
    }
  }

  function JoinedOpen(args: seq<string>, last: string): string {
    if args == [] then last else args[0] + "," + JoinedOpen(args[1..], last)
  }

  lemma {:induction false} ArgumentUnclosed(args: seq<string>, last: string, k: nat)
    requires (forall i | 0 <= i < |args| :: WellNested(args[i], 1)) && NeverEnds(last, 1)
    ensures Argument(JoinedOpen(args, last), k) == if k < |args| then Some(args[k]) else None
  {
    hide Argument, ArgumentEnd, WellNested, NeverEnds;
    if args == [] {
      NeverEndsThere(last, 1);
      NoArgument(last, k);
    } else {
      var a, tail := args[0], JoinedOpen(args[1..], last);
      var s := a + [','] + tail;
      assert s == JoinedOpen(args, last);
      EndsThere(a, ',', tail, 1);
      assert s[..|a|] == a && s[|a|] == ',' && s[|a| + 1..] == tail;
      ArgumentSteps(s, k);
      if k > 0 {
        ArgumentUnclosed(args[1..], last, k - 1);
      }
    }
  }

  lemma NoArgument(s: string, k: nat)
    requires ArgumentEnd(s, 1) == |s|
    ensures Argument(s, k) == None
  {
  }

  /** A text that ends inside an argument still has the ones before it, and the whole text for any other number. */
  lemma Unclosed(name: string, args: seq<string>, last: string, k: nat)
    requires '<' !in name && (forall i | 0 <= i < |args| :: WellNested(args[i], 1)) && NeverEnds(last, 1)
    ensures var sv := name + "<" + JoinedOpen(args, last);
      TemplateArgumentOf(k, sv) == if k < |args| then args[k][TopSpaces(args[k], 1)..] else sv
  {
    hide Argument, NeverEnds, WellNested;
    var tail := JoinedOpen(args, last);
    var sv := name + "<" + tail;
    assert sv[..|name|] == name;
    FindPast(sv, '<', |name|);
    assert sv[|name|..][0] == '<' && sv[|name| + 1..] == tail;
    ArgumentUnclosed(args, last, k);
  }

  /**
    Printing and scanning are inverse up to leading spaces, exactly for the arguments without a space
    after their first other character, inner brackets aside.
   */
  lemma ScanPrinted(name: string, args: seq<string>, rest: string, k: nat)
    requires args != [] && '<' !in name && forall i | 0 <= i < |args| :: WellNested(args[i], 1)
    requires k < |args|
    ensures TemplateArgumentOf(k, Printed(name, args, rest)) == Trimmed(args[k]) <==> TopSpaces(Trimmed(args[k]), 1) == 0
  {
    BeyondTheLast(name, args, rest, k);
    LeadingAreTop(args[k]);
    var a := args[k];
    assert |a[TopSpaces(a, 1)..]| == |a| - TopSpaces(a, 1) && |Trimmed(a)| == |a| - LeadingSpaces(a);
  }

  /** A space further inside costs the argument its first character instead. */
  lemma InnerSpaceEats()
    ensures TemplateArgumentOf(0, Printed("Array", ["T *"], "")) == " *"
  {
    var a := "T *";
    assert a[1..] == " *" && a[1..][1..] == "*" && a[1..][1..][1..] == "";
    assert WellNested(a, 1) && TopSpaces(a, 1) == 1;
    BeyondTheLast("Array", [a], "", 0);
  }
}
