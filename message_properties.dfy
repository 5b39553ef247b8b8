/** The mandatory message properties originalSender and finalRecipient: the
    check of an incoming user message, and the properties copied into a
    two-way response. */
module MessageProperties {
  import opened Common
  import opened Ebms3

  /** The last property with the given name. */
  function LastNamed(props: seq<Property>, name: string): (r: Option<Property>)
    ensures r.Some? ==> exists i :: 0 <= i < |props| && props[i] == r.value && props[i].name == name
                                    && forall j :: i < j < |props| ==> props[j].name != name
    ensures r.None? ==> forall i :: 0 <= i < |props| ==> props[i].name != name
  {
    if props == [] then None
    else if props[|props| - 1].name == name then Some(props[|props| - 1])
    else
      var r := LastNamed(props[..|props| - 1], name);
      assert forall i :: 0 <= i < |props| - 1 ==> props[..|props| - 1][i] == props[i];
      r
  }

  /** The value of an optional property. */
  function ValueOf(p: Option<Property>): Option<string>
  {
    if p.Some? then p.value.value else None
  }

  /** `_checkPropertiesOrignalSenderAndFinalRecipient`: scans the properties,
      the last one of each name winning, and reports the first of
      originalSender and finalRecipient that is missing or has no text. */
  method CheckOriginalSenderAndFinalRecipient(props: seq<Property>) returns (missing: Option<string>)
    ensures missing.None? <==> HasText(ValueOf(LastNamed(props, ORIGINAL_SENDER)))
                               && HasText(ValueOf(LastNamed(props, FINAL_RECIPIENT)))
    ensures missing == Some(ORIGINAL_SENDER) <==> !HasText(ValueOf(LastNamed(props, ORIGINAL_SENDER)))
    ensures missing == Some(FINAL_RECIPIENT) <==>
              HasText(ValueOf(LastNamed(props, ORIGINAL_SENDER))) && !HasText(ValueOf(LastNamed(props, FINAL_RECIPIENT)))
  {
    var originalSender: Option<string> := None;
    var finalRecipient: Option<string> := None;
    var n := 0;
    while n < |props|
      invariant 0 <= n <= |props|
      invariant originalSender == ValueOf(LastNamed(props[..n], ORIGINAL_SENDER))
      invariant finalRecipient == ValueOf(LastNamed(props[..n], FINAL_RECIPIENT))
    {
      assert props[..n + 1][..n] == props[..n] && props[..n + 1][n] == props[n];
      if props[n].name == ORIGINAL_SENDER {
        originalSender := props[n].value;
      } else if props[n].name == FINAL_RECIPIENT {
        finalRecipient := props[n].value;
      }
      n := n + 1;
    }
    assert props[..n] == props;
    if !HasText(originalSender) {
      return Some(ORIGINAL_SENDER);
    }
    if !HasText(finalRecipient) {
      return Some(FINAL_RECIPIENT);
    }
    return None;
  }

  /** The message properties are present, not empty, and name an
      originalSender and a finalRecipient with text. */
  predicate PropertiesAccepted(props: Option<seq<Property>>)
  {
    props.Some? && props.value != []
    && HasText(ValueOf(LastNamed(props.value, ORIGINAL_SENDER)))
    && HasText(ValueOf(LastNamed(props.value, FINAL_RECIPIENT)))
  }

  /** Why the message properties of a user message are rejected. */
  datatype PropertyProblem = NoMessageProperties | EmptyMessageProperties | MissingProperty(name: string)

  /** The first reason, in the receiver's order, to reject the message
      properties, or none. */
  function PropertyProblemOf(props: Option<seq<Property>>): (r: Option<PropertyProblem>)
    ensures r.None? <==> PropertiesAccepted(props)
  {
    if props.None? then Some(NoMessageProperties)
    else if props.value == [] then Some(EmptyMessageProperties)
    else if !HasText(ValueOf(LastNamed(props.value, ORIGINAL_SENDER))) then Some(MissingProperty(ORIGINAL_SENDER))
    else if !HasText(ValueOf(LastNamed(props.value, FINAL_RECIPIENT))) then Some(MissingProperty(FINAL_RECIPIENT))
    else None
  }

  /** The property validation of the receiver: no MessageProperties, an
      empty list, then a missing originalSender, then a missing
      finalRecipient, each rejected with its own reason. */
  method ValidateMessageProperties(props: Option<seq<Property>>) returns (problem: Option<PropertyProblem>)
    ensures props.None? ==> problem == Some(NoMessageProperties)
    ensures props == Some([]) ==> problem == Some(EmptyMessageProperties)
    ensures problem.None? <==> PropertiesAccepted(props)
    ensures problem == PropertyProblemOf(props)
    ensures problem == Some(MissingProperty(ORIGINAL_SENDER)) <==>
              props.Some? && props.value != [] && !HasText(ValueOf(LastNamed(props.value, ORIGINAL_SENDER)))
    ensures problem == Some(MissingProperty(FINAL_RECIPIENT)) <==>
              props.Some? && props.value != [] && HasText(ValueOf(LastNamed(props.value, ORIGINAL_SENDER)))
              && !HasText(ValueOf(LastNamed(props.value, FINAL_RECIPIENT)))
  {
    if props.Some? {
      if props.value != [] {
        var missing := CheckOriginalSenderAndFinalRecipient(props.value);
        if missing.Some? {
          return Some(MissingProperty(missing.value));
        }
        return None;
      } else {
        return Some(EmptyMessageProperties);
      }
    } else {
      return Some(NoMessageProperties);
    }
  }

  /** The message properties of a two-way response. The loop files the
      request's finalRecipient property as "original sender" and its
      originalSender property as "final recipient", but then renames each
      back to the name it already had: the response carries the request's
      last originalSender property, then its last finalRecipient property,
      both unchanged. Either one missing is a null dereference. */
  method ResponseProperties(props: seq<Property>) returns (r: Eval<seq<Property>>)
    ensures r.Threw? <==> LastNamed(props, ORIGINAL_SENDER).None? || LastNamed(props, FINAL_RECIPIENT).None?
    ensures r.Returned? ==> r.value == [LastNamed(props, ORIGINAL_SENDER).value, LastNamed(props, FINAL_RECIPIENT).value]
  {
    var finalRecipient: Option<Property> := None;
    var originalSender: Option<Property> := None;
    var n := 0;
    while n < |props|
      invariant 0 <= n <= |props|
      invariant finalRecipient == LastNamed(props[..n], ORIGINAL_SENDER)
      invariant originalSender == LastNamed(props[..n], FINAL_RECIPIENT)
    {
      assert props[..n + 1][..n] == props[..n] && props[..n + 1][n] == props[n];
      if props[n].name == FINAL_RECIPIENT {
        originalSender := Some(props[n]);
      } else if props[n].name == ORIGINAL_SENDER {
        finalRecipient := Some(props[n]);
      }
      n := n + 1;
    }
    assert props[..n] == props;
    if finalRecipient.None? || originalSender.None? {
      return Threw;
    }
    var renamedFinalRecipient := finalRecipient.value.(name := ORIGINAL_SENDER);
    var renamedOriginalSender := originalSender.value.(name := FINAL_RECIPIENT);
    return Returned([renamedFinalRecipient, renamedOriginalSender]);
  }
}
