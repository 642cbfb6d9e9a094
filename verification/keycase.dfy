/** The key rewrite `formatBodyRaw` applies to every object key: `"ID"`
    becomes `"id"`, any other key has its first character lower-cased. */
module KeyCase {

  predicate IsUpperAscii(c: char)
  {
    'A' <= c <= 'Z'
  }

  /** JavaScript's `toLowerCase` on one character, ASCII letters only. */
  function LowerAscii(c: char): (d: char)
    ensures !IsUpperAscii(d)
    ensures IsUpperAscii(c) ==> d as int == c as int + 32
    ensures !IsUpperAscii(c) ==> d == c
  {
    if IsUpperAscii(c) then (c as int + 32) as char else c
  }

  /** The rewrite of one key: the identifier spelled in capitals becomes
      "id"; any other key has its first character lower-cased and keeps the
      rest. The empty key has no first character and stays empty. */
  function NormalizeKey(k: string): (r: string)
    ensures |r| == |k|
    ensures r != "ID"
    ensures |k| > 0 ==> !IsUpperAscii(r[0])
    ensures |k| > 0 && k != "ID" ==> r[0] == LowerAscii(k[0]) && r[1..] == k[1..]
  {
    if k == "ID" then "id"
    else if |k| == 0 then ""
    else [LowerAscii(k[0])] + k[1..]
  }

  /** The rewrite keeps the length and everything after the first
      character, and never yields "ID" or a key starting with an upper-case
      ASCII letter; a key already in that form is left alone. */
  lemma NormalizeKeyShape(k: string)
    ensures |NormalizeKey(k)| == |k|
    ensures k != "ID" && |k| > 0 ==> NormalizeKey(k)[0] == LowerAscii(k[0])
    ensures k != "ID" && |k| > 0 ==> NormalizeKey(k)[1..] == k[1..]
    ensures NormalizeKey(k) != "ID"
    ensures |k| > 0 ==> !IsUpperAscii(NormalizeKey(k)[0])
    ensures NormalizeKey(k) == k <==> |k| == 0 || !IsUpperAscii(k[0])
  {
    if k != "ID" && |k| > 0 {
      assert NormalizeKey(k)[0] == LowerAscii(k[0]);
      assert k == [k[0]] + k[1..];
    }
  }

  /** Normalising twice is normalising once. */
  lemma NormalizeKeyIdempotent(k: string)
    ensures NormalizeKey(NormalizeKey(k)) == NormalizeKey(k)
  {
    NormalizeKeyShape(k);
    NormalizeKeyShape(NormalizeKey(k));
  }

  /** The keys of the test suite's `setEnabled` exchange. */
  lemma SwitchFixtureKeys()
    ensures NormalizeKey("ID") == "id"
    ensures NormalizeKey("Status") == "status"
    ensures NormalizeKey("id") == "id"
    ensures NormalizeKey("") == ""
  {
    assert "Status" == ['S'] + "tatus";
  }

  /** The keys of the test suite's chat messages, two at a time. */
  lemma ChatFixtureTimeKeys()
    ensures NormalizeKey("TimeStamp") == "timeStamp"
    ensures NormalizeKey("ServerTimeStamp") == "serverTimeStamp"
  {
  }

  lemma ChatFixtureSenderKeys()
    ensures NormalizeKey("Sender") == "sender"
    ensures NormalizeKey("Type") == "type"
  {
  }

  lemma ChatFixtureBodyKeys()
    ensures NormalizeKey("Message") == "message"
    ensures NormalizeKey("Color") == "color"
  {
  }

  /** The keys of the test suite's colour records. */
  lemma ColorFixtureKeys()
    ensures NormalizeKey("R") == "r" && NormalizeKey("G") == "g"
    ensures NormalizeKey("B") == "b" && NormalizeKey("A") == "a"
  {
  }
}
