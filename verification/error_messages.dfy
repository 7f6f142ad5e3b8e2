/** The title and text of the backend's error page (`ErrorMessages`), chosen by the status
    code the servlet container reports. */
module ErrorMessages {
  /** The error-page attribute as Java sees it: an `Integer`, some other object, or `null`. */
  datatype Code = IntCode(n: int) | OtherCode | NoCode

  const DefaultTitle := "Uups! Ein Fehler ist aufgetreten."
  const DefaultMessage := "Entschuldigen Sie die Unannehmlichkeiten. Es gab ein Problem beim Verarbeiten Ihrer Anfrage. Bitte versuchen Sie es später erneut oder kehren Sie zur Startseite zurück."
  const Title404 := "Seite nicht gefunden"
  const Message404 := "Die angeforderte Seite konnte nicht gefunden werden. Möglicherweise wurde die Adresse falsch eingegeben oder die Seite existiert nicht mehr."
  const Title500 := "Interner Serverfehler"
  const Message500 := "Entschuldigen Sie die Unannehmlichkeiten. Es ist ein unerwarteter Serverfehler aufgetreten. Unser Team wurde benachrichtigt und arbeitet bereits an einer Lösung."

  /** The codes with a page of their own. */
  predicate Known(code: Code) {
    code == IntCode(404) || code == IntCode(500)
  }

  /** `getTitleForCode(code)`. */
  function TitleForCode(code: Code): (r: string)
    ensures !Known(code) <==> r == DefaultTitle
    ensures code == IntCode(404) <==> r == Title404
    ensures code == IntCode(500) <==> r == Title500
  {
    if code.IntCode? then
      if code.n == 404 then Title404 else if code.n == 500 then Title500 else DefaultTitle
    else DefaultTitle
  }

  /** `getMessageForCode(code)`. */
  function MessageForCode(code: Code): (r: string)
    ensures !Known(code) <==> r == DefaultMessage
    ensures code == IntCode(404) <==> r == Message404
    ensures code == IntCode(500) <==> r == Message500
  {
    if code.IntCode? then
      if code.n == 404 then Message404 else if code.n == 500 then Message500 else DefaultMessage
    else DefaultMessage
  }

  /** Title and text always come from the same page: the title determines the text. */
  lemma TitleDeterminesMessage(a: Code, b: Code)
    requires TitleForCode(a) == TitleForCode(b)
    ensures MessageForCode(a) == MessageForCode(b)
  {
  }
}
