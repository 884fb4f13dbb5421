/**
 Folding notes typed offline into what the server has. Text is a sequence of characters; blanks
 are space and tab, lines are cut at the newline.
 */
module NoteMerge {
  import Decimal

  predicate IsBlank(c: char) {
    c == ' ' || c == '\t'
  }

  predicate IsSpace(c: char) {
    IsBlank(c) || c == '\n'
  }

  predicate AllSpace(s: string) {
    forall i :: 0 <= i < |s| ==> IsSpace(s[i])
  }

  /** Without trailing white space. */
  function TrimEnd(s: string): string {
    if s != "" && IsSpace(s[|s| - 1]) then TrimEnd(s[..|s| - 1]) else s
  }

  function TrimStart(s: string): string {
    if s != "" && IsSpace(s[0]) then TrimStart(s[1..]) else s
  }

  function Trim(s: string): string {
    TrimStart(TrimEnd(s))
  }

  // ---------------------------------------------------------------- lines

  /** The pieces between newlines, empty ones included. */
  function Split(s: string): (r: seq<string>)
    ensures r != []
  {
    if s == "" then [""]
    else
      var r := Split(s[..|s| - 1]);
      var c := s[|s| - 1];
      if c == '\n' then r + [""] else AddToLast(r, c)
  }

  function AddToLast(r: seq<string>, c: char): (q: seq<string>)
    requires r != []
    ensures |q| == |r|
  {
    r[..|r| - 1] + [r[|r| - 1] + [c]]
  }

  function NotBlank(ls: seq<string>): seq<string> {
    if ls == [] then []
    else NotBlank(ls[..|ls| - 1]) + (if AllSpace(ls[|ls| - 1]) then [] else [ls[|ls| - 1]])
  }

  function Lines(s: string): seq<string> {
    NotBlank(Split(s))
  }

  function Join(ls: seq<string>): string {
    if ls == [] then ""
    else if |ls| == 1 then ls[0]
    else Join(ls[..|ls| - 1]) + "\n" + ls[|ls| - 1]
  }

  // ---------------------------------------------------------------- a line's key

  predicate IsBullet(c: char) {
    c == '-' || c == '•' || c == '*' || c == '·'
  }

  predicate BeforeNumber(c: char) {
    IsSpace(c) || IsBullet(c) || c == '▪' || c == '◦'
  }

  predicate AfterNumber(c: char) {
    IsSpace(c) || IsBullet(c)
  }

  function SkipWhile(p: char -> bool, s: string): string {
    if s != "" && p(s[0]) then SkipWhile(p, s[1..]) else s
  }

  predicate EndsNumber(c: char) {
    c == '.' || c == ')'
  }

  /** Without a list number: one or two digits, a dot or bracket, and white space. */
  function SkipNumber(s: string): string {
    if |s| >= 2 && Decimal.IsDigit(s[0]) && EndsNumber(s[1]) then SkipWhile(IsSpace, s[2..])
    else if |s| >= 3 && Decimal.IsDigit(s[0]) && Decimal.IsDigit(s[1]) && EndsNumber(s[2]) then SkipWhile(IsSpace, s[3..])
    else s
  }

  function DropBullet(s: string): string {
    SkipWhile(AfterNumber, SkipNumber(SkipWhile(BeforeNumber, s)))
  }

  /** Every run of white space as one space. */
  function Collapse(s: string): string {
    if s == "" then ""
    else
      var r := Collapse(s[..|s| - 1]);
      var c := s[|s| - 1];
      if !IsSpace(c) then r + [c]
      else if r != "" && r[|r| - 1] == ' ' then r
      else r + " "
  }

  predicate IsTrailingMark(c: char) {
    c == '.' || c == ';' || c == ','
  }

  function DropMarks(s: string): string {
    if s != "" && IsTrailingMark(s[|s| - 1]) then DropMarks(s[..|s| - 1]) else s
  }

  function LowerChar(c: char): char {
    if 'A' <= c <= 'Z' then c + 32 as char else c
  }

  function Lower(s: string): string {
    seq(|s|, i requires 0 <= i < |s| => LowerChar(s[i]))
  }

  function Normalise(line: string): string {
    Lower(Trim(DropMarks(Trim(Collapse(DropBullet(line))))))
  }

  // ---------------------------------------------------------------- merge

  /** The keys of a text's lines. */
  function Keys(s: string): set<string> {
    set l | l in Lines(s) :: Normalise(l)
  }

  function Unseen(ls: seq<string>, have: set<string>): seq<string> {
    if ls == [] then []
    else Unseen(ls[..|ls| - 1], have) + (if Normalise(ls[|ls| - 1]) in have then [] else [ls[|ls| - 1]])
  }

  const DIVIDER := "---"

  function Merge(remote: string, local: string): string {
    if AllSpace(local) then remote
    else if AllSpace(remote) then local
    else if remote == local then remote
    else
      var news := Unseen(Lines(local), Keys(remote));
      if news == [] then remote else Appended(remote, news)
  }

  function Appended(remote: string, news: seq<string>): string {
    TrimEnd(remote) + "\n" + "" + "\n" + DIVIDER + "\n" + Join(news)
  }
}
