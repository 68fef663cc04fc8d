/**
 * The Russian number-word reader: lower-cases the text, splits it on
 * whitespace and runs an accumulator over the words.  Unit words add to the
 * running group, "сто" multiplies it, and the thousand words move the group,
 * times a thousand, into the total.
 */
module NumberWords {
  import opened Wrappers
  import opened Text

  /** The number words and their values. */
  const NumberWords: map<string, real> := map[
    "ноль" := 0.0, "нуль" := 0.0,
    "один" := 1.0, "одна" := 1.0, "полтора" := 1.5,
    "два" := 2.0, "две" := 2.0,
    "три" := 3.0, "четыре" := 4.0, "пять" := 5.0,
    "шесть" := 6.0, "семь" := 7.0, "восемь" := 8.0,
    "девять" := 9.0, "десять" := 10.0,
    "одиннадцать" := 11.0, "двенадцать" := 12.0,
    "тринадцать" := 13.0, "четырнадцать" := 14.0,
    "пятнадцать" := 15.0, "шестнадцать" := 16.0,
    "семнадцать" := 17.0, "восемнадцать" := 18.0,
    "девятнадцать" := 19.0, "двадцать" := 20.0,
    "тридцать" := 30.0, "сорок" := 40.0, "пятьдесят" := 50.0,
    "шестьдесят" := 60.0, "семьдесят" := 70.0,
    "восемьдесят" := 80.0, "девяносто" := 90.0,
    "сто" := 100.0, "двести" := 200.0, "триста" := 300.0,
    "четыреста" := 400.0, "пятьсот" := 500.0
  ]

  /** The words that close a group of thousands; they are not number words themselves. */
  const ThousandWords: set<string> := {"тысяч", "тысяча", "тысячи"}

  /** The accumulator: the finished thousands and the group being read. */
  datatype Acc = Acc(total: real, current: real)

  /** An empty group counts as one before "сто" or a thousand word. */
  function OrOne(x: real): real
  {
    if x == 0.0 then 1.0 else x
  }

  /** One word's effect on the accumulator, given the number-word table. */
  function Step(table: map<string, real>, a: Acc, w: string): Acc
  {
    if w in table then
      if table[w] == 100.0 then Acc(a.total, OrOne(a.current) * 100.0)
      else Acc(a.total, a.current + table[w])
    else if w in ThousandWords then Acc(a.total + OrOne(a.current) * 1000.0, 0.0)
    else a
  }

  /** The accumulator after reading `ws` from the start. */
  function Scan(table: map<string, real>, ws: seq<string>): Acc
  {
    if ws == [] then Acc(0.0, 0.0)
    else Step(table, Scan(table, ws[..|ws| - 1]), ws[|ws| - 1])
  }

  /** Some word is a number word. */
  predicate HasNumber(table: map<string, real>, ws: seq<string>)
  {
    exists i :: 0 <= i < |ws| && ws[i] in table
  }

  /** The words of the text as the reader sees them. */
  function WordsOf(text: string): seq<string>
  {
    Words(LowerString(text))
  }

  /** The reading of a word list: no number word, or a sum of zero, fails. */
  function Reading(table: map<string, real>, ws: seq<string>): Result<real>
  {
    if !HasNumber(table, ws) then Err(NoNumberWords)
    else
      var a := Scan(table, ws);
      if a.total + a.current == 0.0 then Err(ZeroNumber) else Ok(a.total + a.current)
  }

  /** `word_to_number` on a text. */
  function WordToNumber(text: string): Result<real>
  {
    Reading(NumberWords, WordsOf(text))
  }

  /** `word_to_number` with its two loops, over a given table. */
  method ReadNumber(table: map<string, real>, ws: seq<string>) returns (r: Result<real>)
    ensures r.Err? <==> !HasNumber(table, ws) || Scan(table, ws).total + Scan(table, ws).current == 0.0
    ensures !HasNumber(table, ws) ==> r == Err(NoNumberWords)
    ensures r.Ok? ==> r.value == Scan(table, ws).total + Scan(table, ws).current
    ensures HasNumber(table, ws) && r.Err? ==> r == Err(ZeroNumber)
  {
    var hasNumber := false;
    var k := 0;
    while k < |ws|
      invariant 0 <= k <= |ws|
      invariant !hasNumber && forall i :: 0 <= i < k ==> ws[i] !in table
    {
      if ws[k] in table {
        hasNumber := true;
        break;
      }
      k := k + 1;
    }
    if !hasNumber {
      return Err(NoNumberWords);
    }
    assert ws[k] in table;
    var total, current := 0.0, 0.0;
    var i := 0;
    while i < |ws|
      invariant 0 <= i <= |ws|
      invariant Acc(total, current) == Scan(table, ws[..i])
    {
      var word := ws[i];
      assert ws[..i + 1][..i] == ws[..i];
      if word in table {
        if table[word] == 100.0 {
          if current == 0.0 {
            current := 1.0;
          }
          current := current * table[word];
        } else {
          current := current + table[word];
        }
      } else if word == "тысяч" || word == "тысяча" || word == "тысячи" {
        if current == 0.0 {
          current := 1.0;
        }
        total := total + current * 1000.0;
        current := 0.0;
      }
      i := i + 1;
    }
    assert ws[..i] == ws;
    total := total + current;
    if total == 0.0 {
      return Err(ZeroNumber);
    }
    r := Ok(total);
  }

  /** The reader on a text: lower-case, split, then the loops. */
  method WordToNumberOf(text: string) returns (r: Result<real>)
    ensures r == WordToNumber(text)
  {
    r := ReadNumber(NumberWords, WordsOf(text));
  }

  /** The words the reader reacts to: number words and thousand words, in order. */
  function Relevant(table: map<string, real>, ws: seq<string>): (r: seq<string>)
    ensures forall w :: w in r ==> w in table || w in ThousandWords
    ensures |r| <= |ws|
  {
    if ws == [] then []
    else
      var w := ws[|ws| - 1];
      if w in table || w in ThousandWords then Relevant(table, ws[..|ws| - 1]) + [w]
      else Relevant(table, ws[..|ws| - 1])
  }

  /** Some number word occurs in `ws` exactly when one occurs in its prefix or is its last word. */
  lemma HasNumberSnoc(table: map<string, real>, ws: seq<string>, w: string)
    ensures HasNumber(table, ws + [w]) <==> HasNumber(table, ws) || w in table
  {
    if HasNumber(table, ws) {
      var i :| 0 <= i < |ws| && ws[i] in table;
      assert (ws + [w])[i] == ws[i];
    }
    if w in table {
      assert (ws + [w])[|ws|] == w;
    }
    if HasNumber(table, ws + [w]) && !(w in table) {
      var i :| 0 <= i < |ws + [w]| && (ws + [w])[i] in table;
      assert i < |ws| && ws[i] in table;
    }
  }

  /** Words other than number and thousand words change neither the sum nor whether a number was found. */
  lemma {:induction false} OtherWordsIgnored(table: map<string, real>, ws: seq<string>)
    ensures Scan(table, Relevant(table, ws)) == Scan(table, ws)
    ensures HasNumber(table, Relevant(table, ws)) <==> HasNumber(table, ws)
  {
    if ws != [] {
      var p, w := ws[..|ws| - 1], ws[|ws| - 1];
      assert ws == p + [w];
      OtherWordsIgnored(table, p);
      HasNumberSnoc(table, p, w);
      var rp := Relevant(table, p);
      if w in table || w in ThousandWords {
        assert (rp + [w])[..|rp + [w]| - 1] == rp;
        HasNumberSnoc(table, rp, w);
      }
    }
  }

  /** The sum of the values of words that are all number words. */
  function Sum(table: map<string, real>, ws: seq<string>): real
    requires forall w :: w in ws ==> w in table
  {
    if ws == [] then 0.0 else Sum(table, ws[..|ws| - 1]) + table[ws[|ws| - 1]]
  }

  /** Without "сто" and thousand words the reader simply adds the word values. */
  lemma {:induction false} PlainWordsAdd(table: map<string, real>, ws: seq<string>)
    requires forall w :: w in ws ==> w in table && table[w] != 100.0
    ensures Scan(table, ws) == Acc(0.0, Sum(table, ws))
  {
    if ws != [] {
      var p := ws[..|ws| - 1];
      assert forall w :: w in p ==> w in ws;
      PlainWordsAdd(table, p);
    }
  }

  /** With no negative values in the table, neither part of the accumulator goes negative. */
  lemma {:induction false} ScanNonnegative(table: map<string, real>, ws: seq<string>)
    requires forall w :: w in table ==> table[w] >= 0.0
    ensures Scan(table, ws).total >= 0.0 && Scan(table, ws).current >= 0.0
  {
    if ws != [] {
      ScanNonnegative(table, ws[..|ws| - 1]);
    }
  }

  /** A successful reading is a positive number. */
  lemma ReadingPositive(text: string)
    ensures WordToNumber(text).Ok? ==> WordToNumber(text).value > 0.0
  {
    ScanNonnegative(NumberWords, WordsOf(text));
  }

  /** A thousand word alone is not a number: the reader needs a number word. */
  lemma ThousandAloneFails()
    ensures Reading(NumberWords, ["тысяча"]) == Err(NoNumberWords)
  {
    assert "тысяча" !in NumberWords;
  }

  /** "ноль" is a number word but reads as zero, which fails. */
  lemma ZeroFails()
    ensures Reading(NumberWords, ["ноль"]) == Err(ZeroNumber)
  {
    assert ["ноль"][0] in NumberWords;
  }

  /** "сто" multiplies the whole group read so far: "двадцать пять сто" is 2500. */
  lemma HundredMultipliesGroup()
    ensures Reading(NumberWords, ["двадцать", "пять", "сто"]) == Ok(2500.0)
  {
    var ws := ["двадцать", "пять", "сто"];
    assert ws[0] in NumberWords;
    assert Scan(NumberWords, ws[..1]) == Acc(0.0, 20.0) by { assert ws[..1][..0] == []; }
    assert Scan(NumberWords, ws[..2]) == Acc(0.0, 25.0) by { assert ws[..2][..1] == ws[..1]; }
    assert Scan(NumberWords, ws) == Acc(0.0, 2500.0) by { assert ws[..2] == ws[..|ws| - 1]; }
  }

  /** A thousand word closes the group: "две тысячи пятьсот" is 2500. */
  lemma ThousandsThenHundreds()
    ensures Reading(NumberWords, ["две", "тысячи", "пятьсот"]) == Ok(2500.0)
  {
    var ws := ["две", "тысячи", "пятьсот"];
    assert ws[0] in NumberWords;
    assert Scan(NumberWords, ws[..1]) == Acc(0.0, 2.0) by { assert ws[..1][..0] == []; }
    assert Scan(NumberWords, ws[..2]) == Acc(2000.0, 0.0) by {
      assert ws[..2][..1] == ws[..1];
      assert "тысячи" !in NumberWords;
    }
    assert Scan(NumberWords, ws) == Acc(2000.0, 500.0) by { assert ws[..2] == ws[..|ws| - 1]; }
  }
}
