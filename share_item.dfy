/**
 * The share record that one row of the share table shows.
 */
module ShareItem {

  /** A share record. The table model reads only `name` and `expired` (an
      expiry timestamp whose date comes before the first space); `details`
      stands for every other field of the record, which the model carries
      along unchanged and never inspects. */
  datatype Item = Item(name: string, expired: string, details: seq<string>)

  /** The text of `expired` before its first space, or all of it when it has
      no space: what splitting on ' ' and taking the first part yields. */
  function DatePart(expired: string): (date: string)
    ensures date <= expired
    ensures ' ' !in date
    ensures |date| < |expired| ==> expired[|date|] == ' '
  {
    if expired == [] || expired[0] == ' ' then []
    else [expired[0]] + DatePart(expired[1..])
  }

  /** The three facts DatePart promises determine it: any prefix without a
      space that ends at the end of the string or at a space is DatePart. */
  lemma {:induction false} DatePartIsFirstField(expired: string, date: string)
    requires date <= expired && ' ' !in date
    requires |date| == |expired| || expired[|date|] == ' '
    ensures DatePart(expired) == date
  {
    if expired != [] && expired[0] != ' ' {
      DatePartIsFirstField(expired[1..], date[1..]);
    }
  }

  /** A timestamp "date time" projects to its date. */
  lemma DatePartOfTimestamp(date: string, time: string)
    requires ' ' !in date
    ensures DatePart(date + " " + time) == date
  {
    DatePartIsFirstField(date + " " + time, date);
  }

  /** A string with no space projects to itself. */
  lemma DatePartWithoutSpace(expired: string)
    requires ' ' !in expired
    ensures DatePart(expired) == expired
  {
    DatePartIsFirstField(expired, expired);
  }
}
