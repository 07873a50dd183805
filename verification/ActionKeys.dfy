/** Keys of the item bucket used by the action protocol, and why they never collide. */
module ActionKeys {
  import opened Records
  import opened Text

  function ActionKey(app: string, participant: string, id: string): string {
    "apps." + app + ".participants." + participant + ".actions." + id
  }

  function ReceiptKey(actionKey: string): string {
    actionKey + ".receipt"
  }

  function StatePrefix(app: string): string {
    "apps." + app + ".state."
  }

  ghost predicate IsActionKey(key: string) {
    exists app, participant, id ::
      && ValidToken(app) && ValidToken(participant) && ValidToken(id)
      && key == ActionKey(app, participant, id)
  }

  ghost predicate IsReceiptKey(key: string) {
    exists action :: IsActionKey(action) && key == ReceiptKey(action)
  }

  ghost predicate IsStateKey(key: string) {
    exists app :: ValidToken(app) && StatePrefix(app) <= key
  }

  lemma CutAfterApps(app1: string, rest1: string, app2: string, rest2: string)
    requires '.' !in app1 && '.' !in app2
    requires "apps." + app1 + "." + rest1 == "apps." + app2 + "." + rest2
    ensures app1 == app2 && rest1 == rest2
  {
    var s1, s2 := app1 + "." + rest1, app2 + "." + rest2;
    assert "apps." + app1 + "." + rest1 == "apps." + s1;
    assert "apps." + app2 + "." + rest2 == "apps." + s2;
    assert s1 == ("apps." + s1)[5..] && s2 == ("apps." + s2)[5..];
    CutAtDot(app1, rest1, app2, rest2);
  }

  /** The part of an action or receipt key after the application. */
  function Tail(participant: string, last: string): string {
    "participants." + (participant + "." + ("actions." + last))
  }

  lemma KeyByTail(app: string, participant: string, id: string, suffix: string)
    ensures ActionKey(app, participant, id) + suffix == "apps." + app + "." + Tail(participant, id + suffix)
  {
  }

  lemma TailInjective(p1: string, l1: string, p2: string, l2: string)
    requires '.' !in p1 && '.' !in p2
    requires Tail(p1, l1) == Tail(p2, l2)
    ensures p1 == p2 && l1 == l2
  {
    var s1, s2 := p1 + "." + ("actions." + l1), p2 + "." + ("actions." + l2);
    assert s1 == Tail(p1, l1)[13..] && s2 == Tail(p2, l2)[13..];
    CutAtDot(p1, "actions." + l1, p2, "actions." + l2);
    assert l1 == ("actions." + l1)[8..] && l2 == ("actions." + l2)[8..];
  }

  /** Tokens have no dot, so an action key determines its application, participant and id. */
  lemma ActionKeyInjective(a1: string, p1: string, i1: string, a2: string, p2: string, i2: string)
    requires ValidToken(a1) && ValidToken(p1) && ValidToken(i1)
    requires ValidToken(a2) && ValidToken(p2) && ValidToken(i2)
    requires ActionKey(a1, p1, i1) == ActionKey(a2, p2, i2)
    ensures a1 == a2 && p1 == p2 && i1 == i2
  {
    KeyByTail(a1, p1, i1, "");
    KeyByTail(a2, p2, i2, "");
    assert i1 + "" == i1 && i2 + "" == i2;
    assert ActionKey(a1, p1, i1) + "" == ActionKey(a1, p1, i1);
    assert ActionKey(a2, p2, i2) + "" == ActionKey(a2, p2, i2);
    CutAfterApps(a1, Tail(p1, i1), a2, Tail(p2, i2));
    TailInjective(p1, i1, p2, i2);
  }

  lemma ReceiptKeyInjective(a: string, b: string)
    requires ReceiptKey(a) == ReceiptKey(b)
    ensures a == b
  {
    assert a == ReceiptKey(a)[..|a|];
  }

  /** No key plays two of the three parts. */
  lemma KeysDisjoint(key: string)
    ensures !(IsActionKey(key) && IsReceiptKey(key))
    ensures !(IsActionKey(key) && IsStateKey(key))
    ensures !(IsReceiptKey(key) && IsStateKey(key))
  {
    if IsActionKey(key) && IsReceiptKey(key) {
      var a2, p2, i2 :| ValidToken(a2) && ValidToken(p2) && ValidToken(i2) && key == ActionKey(a2, p2, i2);
      var action :| IsActionKey(action) && key == ReceiptKey(action);
      var a1, p1, i1 :| ValidToken(a1) && ValidToken(p1) && ValidToken(i1) && action == ActionKey(a1, p1, i1);
      KeyByTail(a1, p1, i1, ".receipt");
      KeyByTail(a2, p2, i2, "");
      assert i2 + "" == i2 && key + "" == key;
      assert (i1 + ".receipt")[|i1|] == '.';
      assert '.' in i1 + ".receipt";
      CutAfterApps(a1, Tail(p1, i1 + ".receipt"), a2, Tail(p2, i2));
      TailInjective(p1, i1 + ".receipt", p2, i2);
    }
    if IsActionKey(key) && IsStateKey(key) {
      var a2, p2, i2 :| ValidToken(a2) && ValidToken(p2) && ValidToken(i2) && key == ActionKey(a2, p2, i2);
      KeyByTail(a2, p2, i2, "");
      assert key + "" == key;
      NotState(key, a2, p2, i2 + "");
    }
    if IsReceiptKey(key) && IsStateKey(key) {
      var action :| IsActionKey(action) && key == ReceiptKey(action);
      var a1, p1, i1 :| ValidToken(a1) && ValidToken(p1) && ValidToken(i1) && action == ActionKey(a1, p1, i1);
      KeyByTail(a1, p1, i1, ".receipt");
      NotState(key, a1, p1, i1 + ".receipt");
    }
  }

  lemma NotState(key: string, app: string, participant: string, last: string)
    requires ValidToken(app) && key == "apps." + app + "." + Tail(participant, last)
    ensures !IsStateKey(key)
  {
    if IsStateKey(key) {
      var other :| ValidToken(other) && StatePrefix(other) <= key;
      var rest := key[|StatePrefix(other)|..];
      assert key == StatePrefix(other) + rest == "apps." + other + "." + ("state." + rest);
      assert Tail(participant, last)[0] == 'p' && ("state." + rest)[0] == 's';
      CutAfterApps(app, Tail(participant, last), other, "state." + rest);
    }
  }

  // ---------- the subject a participant submits on ----------

  function ActionSubject(app: string, participant: string): string {
    Join(["tb", "app", app, "participants", participant, "action"], '.')
  }

  /** The application and participant a submit subject names. */
  function ParseActionSubject(subject: string): Option<(string, string)> {
    var parts := Split(subject, '.');
    if |parts| != 6 || parts[0] != "tb" || parts[1] != "app" || parts[3] != "participants" || parts[5] != "action"
    then None
    else if !ValidToken(parts[2]) || !ValidToken(parts[4]) then None
    else Some((parts[2], parts[4]))
  }

  /** Parsing accepts exactly the submit subjects of valid tokens, and recovers both. */
  lemma ParseInverts(subject: string, app: string, participant: string)
    ensures ParseActionSubject(subject) == Some((app, participant))
            <==> ValidToken(app) && ValidToken(participant) && subject == ActionSubject(app, participant)
  {
    hide Split, Join;
    var parts := ["tb", "app", app, "participants", participant, "action"];
    if ParseActionSubject(subject) == Some((app, participant)) {
      assert Split(subject, '.') == parts;
    }
    if ValidToken(app) && ValidToken(participant) && subject == ActionSubject(app, participant) {
      SplitJoin(parts, '.');
    }
  }
}
