/** The values of the component's `buttonState` and the two pure maps from
    that value to what the button shows. The state is a string, as in the
    component, so that the fallback branches of the maps are part of the model. */
module ButtonStates {

  const IDLE: string := "idle"
  const READY: string := "ready"
  const LISTENING: string := "listening"
  const PROCESSING: string := "processing"

  /** The four values the component ever assigns to `buttonState`. */
  predicate IsKnown(st: string)
  {
    st == IDLE || st == READY || st == LISTENING || st == PROCESSING
  }
}

module Labels {
  import opened ButtonStates

  /** Background colour of the button: grey exactly when no session step is
      under way (idle, or a value the component never assigns). */
  function ButtonColor(st: string): (c: string)
    ensures c == "grey" || c == "green" || c == "red" || c == "orange"
    ensures c == "grey" <==> st != READY && st != LISTENING && st != PROCESSING
    ensures c == "green" <==> st == READY
    ensures c == "red" <==> st == LISTENING
    ensures c == "orange" <==> st == PROCESSING
  {
    if st == IDLE then "grey"
    else if st == READY then "green"
    else if st == LISTENING then "red"
    else if st == PROCESSING then "orange"
    else "grey"
  }

  /** Caption of the button: it names the action the next click performs. */
  function ButtonText(st: string): (t: string)
    ensures t == "Conectar" || t == "Hablar" || t == "Detener" || t == "Procesando..."
    ensures t == "Conectar" <==> st != READY && st != LISTENING && st != PROCESSING
    ensures t == "Hablar" <==> st == READY
    ensures t == "Detener" <==> st == LISTENING
    ensures t == "Procesando..." <==> st == PROCESSING
  {
    if st == IDLE then "Conectar"
    else if st == READY then "Hablar"
    else if st == LISTENING then "Detener"
    else if st == PROCESSING then "Procesando..."
    else "Conectar"
  }

  /** Colour and caption partition the states in the same way: the button is
      grey exactly when it offers to connect. */
  lemma ColorMatchesText(st: string)
    ensures ButtonColor(st) == "grey" <==> ButtonText(st) == "Conectar"
    ensures ButtonColor(st) == "green" <==> ButtonText(st) == "Hablar"
    ensures ButtonColor(st) == "red" <==> ButtonText(st) == "Detener"
    ensures ButtonColor(st) == "orange" <==> ButtonText(st) == "Procesando..."
  {
  }

  /** Among the four known states, the caption (and so the colour) tells the
      state apart. */
  lemma TextIdentifiesKnownState(a: string, b: string)
    requires IsKnown(a) && IsKnown(b)
    ensures ButtonText(a) == ButtonText(b) <==> a == b
    ensures ButtonColor(a) == ButtonColor(b) <==> a == b
  {
  }

  /** A value outside the four known states is shown exactly as `idle`. */
  lemma UnknownStateShownAsIdle(st: string)
    requires !IsKnown(st)
    ensures ButtonColor(st) == ButtonColor(IDLE) == "grey"
    ensures ButtonText(st) == ButtonText(IDLE) == "Conectar"
  {
  }
}
