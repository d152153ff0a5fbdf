/** Key codes and the key bindings of `src/config.rs`. */
module Keys {

  /** The terminal keys the views react to; every other key is `Other`. */
  datatype KeyCode = Char(c: char) | Enter | Esc | Other

  datatype KeyConfig = KeyConfig(
    enter: KeyCode, quit: KeyCode,
    tabMain: KeyCode, tabLog: KeyCode, tabControls: KeyCode,
    up: KeyCode, down: KeyCode, left: KeyCode, right: KeyCode,
    pageUp: KeyCode, pageDown: KeyCode,
    startTimer: KeyCode, complete: KeyCode, back: KeyCode,
    prevSubfilter: KeyCode, nextSubfilter: KeyCode)

  /** Whether a component handled a key. */
  datatype EventState = Consumed | NotConsumed

  /** `KeyConfig::default()`. */
  function DefaultKeyConfig(): (k: KeyConfig)
    ensures k.enter == Enter && k.quit == Esc
    ensures k.up == Char('k') && k.down == Char('j') && k.left == Char('h') && k.right == Char('l')
    ensures k.pageUp == Char('J') && k.pageDown == Char('K')
    ensures k.startTimer == Char('s') && k.complete == Char(' ') && k.back == Char('b')
    ensures k.prevSubfilter == Char('H') && k.nextSubfilter == Char('L')
  {
    KeyConfig(Enter, Esc, Char('1'), Char('2'), Char('3'),
              Char('k'), Char('j'), Char('h'), Char('l'),
              Char('J'), Char('K'), Char('s'), Char(' '), Char('b'),
              Char('H'), Char('L'))
  }

  /** The task view's eight bindings. */
  function TaskViewKeys(k: KeyConfig): seq<KeyCode>
  {
    [k.down, k.up, k.pageDown, k.pageUp, k.startTimer, k.complete, k.back, k.enter]
  }

  /** The log view's six bindings, in the order it tests them. */
  function LogViewKeys(k: KeyConfig): seq<KeyCode>
  {
    [k.left, k.right, k.prevSubfilter, k.nextSubfilter, k.pageDown, k.pageUp]
  }

  /** The position of the first binding in `keys` that `key` matches, which
      is the one a chain of `if key == …` tests takes; `|keys|` when none
      does. */
  function FirstMatch(key: KeyCode, keys: seq<KeyCode>): (r: nat)
    ensures r <= |keys|
    ensures r < |keys| ==> keys[r] == key
    ensures forall j :: 0 <= j < r ==> keys[j] != key
    ensures r == |keys| <==> key !in keys
  {
    if |keys| == 0 || keys[0] == key then 0 else 1 + FirstMatch(key, keys[1..])
  }

  /** Under the default bindings no two task-view actions share a key, so the
      order in which the view tests them does not matter. */
  lemma DefaultTaskViewKeysDistinct()
    ensures forall i, j :: 0 <= i < j < 8 ==> TaskViewKeys(DefaultKeyConfig())[i] != TaskViewKeys(DefaultKeyConfig())[j]
  {
  }
}
