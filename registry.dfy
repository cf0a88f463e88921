/**
 * The rule registry: rule classes stored under their class names, in the order the
 * names were first registered, as a Python dictionary keeps them.
 */
module Registry {
  import opened Wrappers
  import opened Catalog

  datatype RegistryError = KeyError(name: string)

  class RuleRegistry {
    var rules: map<string, RuleClass>
    /** The names in dictionary order. */
    var order: seq<string>

    /** Every class is stored under its own name, and `order` lists each stored name
        once. */
    ghost predicate Valid()
      reads this
    {
      && (forall name :: name in rules ==> rules[name].Name() == name)
      && (forall name :: name in rules <==> name in order)
      && (forall i, j :: 0 <= i < j < |order| ==> order[i] != order[j])
    }

    constructor()
      ensures rules == map[] && order == [] && Valid()
    {
      rules := map[];
      order := [];
    }

    /** `register_rule`: a name registered again keeps its place and gets the new class. */
    method RegisterRule(ruleClass: RuleClass)
      requires Valid()
      modifies this
      ensures Valid()
      ensures rules == old(rules)[ruleClass.Name() := ruleClass]
      ensures order == if ruleClass.Name() in old(rules) then old(order) else old(order) + [ruleClass.Name()]
    {
      if ruleClass.Name() !in rules {
        order := order + [ruleClass.Name()];
      }
      rules := rules[ruleClass.Name() := ruleClass];
    }

    /** `get_rule`: the class registered under `name`, or a `KeyError`. */
    function GetRule(name: string): (r: Result<RuleClass, RegistryError>)
      reads this
      requires Valid()
      ensures r.Ok? <==> name in rules
      ensures r.Ok? ==> r.value.Name() == name && r.value == rules[name]
      ensures r.Err? ==> r.error == KeyError(name)
    {
      if name in rules then Ok(rules[name]) else Err(KeyError(name))
    }

    /** `get_all_rules`: one class per registered name, in registration order. */
    function GetAllRules(): (r: seq<RuleClass>)
      reads this
      requires Valid()
      ensures |r| == |order|
      ensures forall i :: 0 <= i < |r| ==> r[i].Name() == order[i] && r[i] == rules[order[i]]
      ensures forall i, j :: 0 <= i < j < |r| ==> r[i].Name() != r[j].Name()
      ensures forall name :: name in rules <==> exists i :: 0 <= i < |r| && r[i].Name() == name
    {
      var names, classes := order, rules;
      var r := seq(|names|, i requires 0 <= i < |names| && names[i] in classes => classes[names[i]]);
      assert forall name :: name in rules ==> exists i :: 0 <= i < |r| && r[i].Name() == name by {
        forall name | name in rules
          ensures exists i :: 0 <= i < |r| && r[i].Name() == name
        {
          var i :| 0 <= i < |order| && order[i] == name;
          assert r[i].Name() == name;
        }
      }
      r
    }

    /** `create_all_rules`: a fresh instance of every registered class, in the same
        order. */
    function CreateAllRules(): (r: seq<RuleInstance>)
      reads this
      requires Valid()
      ensures |r| == |GetAllRules()|
      ensures forall i :: 0 <= i < |r| ==> r[i].ruleClass == GetAllRules()[i]
    {
      var classes := GetAllRules();
      seq(|classes|, i requires 0 <= i < |classes| => RuleInstance(classes[i]))
    }
  }
}
