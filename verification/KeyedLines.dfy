/** Lines of the form `key=value`, as the transaction log and the backup archive write them. */
module KeyedLines {
  import opened Text

  /** The line gives a value for the key. */
  predicate Names(line: string, key: string) {
    SplitOnce(line, '=').Some? && SplitOnce(line, '=').value.0 == key
  }

  function ValueOf(line: string): string
    requires SplitOnce(line, '=').Some?
  {
    SplitOnce(line, '=').value.1
  }

  /** The value on the last line that names the key. */
  function LastValue(lines: seq<string>, key: string): Option<string> {
    if lines == [] then None
    else if Names(lines[|lines| - 1], key) then Some(ValueOf(lines[|lines| - 1]))
    else LastValue(lines[..|lines| - 1], key)
  }

  lemma LastValueAppend(lines: seq<string>, l: string, key: string)
    ensures LastValue(lines + [l], key) == if Names(l, key) then Some(ValueOf(l)) else LastValue(lines, key)
  {
    assert (lines + [l])[..|lines|] == lines;
  }
}
