/**
 * The terms step of signup: three terms, each agreed with its own toggle or
 * all at once with "agree to all"; "next" is enabled once every required
 * term is agreed. The `agreed` record starts empty, and a missing entry
 * reads as not agreed.
 */
module TermsAgreement {
  import opened JsValues

  datatype TermItem = TermItem(id: string, title: string, required: bool, url: Option<string>)

  /** `TERMS`: the service terms, the privacy policy and the age statement, all required. */
  const Terms: seq<TermItem> := [
    TermItem("service", "서비스 이용약관", true, Some("/terms/service")),
    TermItem("privacy", "개인정보 처리방침", true, Some("/terms/privacy")),
    TermItem("age", "만 14세 이상입니다", true, None)
  ]

  /** `agreed[id]`, with a missing entry read as not agreed. */
  function Agreed(agreed: map<string, bool>, id: string): (yes: bool)
    ensures yes <==> id in agreed && agreed[id]
  {
    id in agreed && agreed[id]
  }

  /** `allRequired`: every required term is agreed. */
  predicate AllRequired(agreed: map<string, bool>)
  {
    forall k :: 0 <= k < |Terms| && Terms[k].required ==> Agreed(agreed, Terms[k].id)
  }

  /** `allChecked`: every term is agreed. */
  predicate AllChecked(agreed: map<string, bool>)
  {
    forall k :: 0 <= k < |Terms| ==> Agreed(agreed, Terms[k].id)
  }

  /** `handleToggle(id)` on the record: only `id` flips. */
  function Toggle(agreed: map<string, bool>, id: string): (next: map<string, bool>)
    ensures Agreed(next, id) == !Agreed(agreed, id)
    ensures forall other :: other != id ==> (other in next <==> other in agreed)
    ensures forall other :: other != id && other in agreed ==> next[other] == agreed[other]
  {
    agreed[id := !Agreed(agreed, id)]
  }

  /** The term ids, in order. */
  function TermIds(): (ids: seq<string>)
    ensures |ids| == |Terms| && forall k :: 0 <= k < |Terms| ==> ids[k] == Terms[k].id
  {
    seq(|Terms|, k requires 0 <= k < |Terms| => Terms[k].id)
  }

  class TermsAgreement {
    /** The `agreed` state. */
    var agreed: map<string, bool>

    constructor()
      ensures agreed == map[]
    {
      agreed := map[];
    }

    /** `handleToggle(id)`. */
    method HandleToggle(id: string)
      modifies this
      ensures agreed == Toggle(old(agreed), id)
    {
      agreed := Toggle(agreed, id);
    }

    /**
     * `handleToggleAll()`: a new record with every term set to the
     * opposite of "all agreed"; entries for other ids are dropped.
     */
    method HandleToggleAll()
      modifies this
      ensures agreed.Keys == set k | 0 <= k < |Terms| :: Terms[k].id
      ensures forall k :: 0 <= k < |Terms| ==> agreed[Terms[k].id] == !AllChecked(old(agreed))
    {
      var allChecked := AllChecked(agreed);
      var newState: map<string, bool> := map[];
      var ids := TermIds();
      for i := 0 to |ids|
        invariant newState.Keys == set k | 0 <= k < i :: ids[k]
        invariant forall k :: 0 <= k < i ==> newState[ids[k]] == !allChecked
      {
        newState := newState[ids[i] := !allChecked];
      }
      agreed := newState;
    }

    /** Whether "next" is enabled: its `disabled` is `!allRequired`. */
    function NextEnabled(): (enabled: bool)
      reads this
      ensures enabled <==> AllRequired(agreed)
    {
      AllRequired(agreed)
    }
  }

  // ---------------------------------------------------------------------
  // Properties

  /** Every term is required, so "all required" and "all agreed" are the same test. */
  lemma AllRequiredIsAllChecked(agreed: map<string, bool>)
    ensures AllRequired(agreed) <==> AllChecked(agreed)
  {
    assert forall k :: 0 <= k < |Terms| ==> Terms[k].required;
  }

  /** Nothing is agreed at first, so "next" starts disabled. */
  lemma InitiallyDisabled()
    ensures !AllRequired(map[])
  {
    assert !Agreed(map[], Terms[0].id);
  }

  /** Toggling the same term twice gives back its agreement and every other term's. */
  lemma ToggleTwice(agreed: map<string, bool>, id: string, other: string)
    ensures Agreed(Toggle(Toggle(agreed, id), id), other) == Agreed(agreed, other)
  {
  }

  /** Agreeing to each of the three terms one by one enables "next". */
  lemma ToggleEachEnablesNext()
    ensures AllRequired(Toggle(Toggle(Toggle(map[], "service"), "privacy"), "age"))
  {
    var agreed := Toggle(Toggle(Toggle(map[], "service"), "privacy"), "age");
    assert Agreed(agreed, "service") && Agreed(agreed, "privacy") && Agreed(agreed, "age");
  }

  /**
   * "Agree to all" enables "next" exactly when not everything was agreed
   * before; a second press undoes the first, as far as "next" is concerned.
   */
  method ToggleAllFlips(agreed: map<string, bool>) returns (afterOnce: bool, afterTwice: bool)
    ensures afterOnce <==> !AllChecked(agreed)
    ensures afterTwice <==> AllChecked(agreed)
  {
    var form := new TermsAgreement();
    form.agreed := agreed;
    form.HandleToggleAll();
    afterOnce := form.NextEnabled();
    AllRequiredIsAllChecked(form.agreed);
    assert Agreed(form.agreed, Terms[0].id) == !AllChecked(agreed);
    var once := form.agreed;
    form.HandleToggleAll();
    afterTwice := form.NextEnabled();
    AllRequiredIsAllChecked(form.agreed);
    assert Agreed(form.agreed, Terms[0].id) == !AllChecked(once);
  }
}
