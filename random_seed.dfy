/**
 * The seed panel (components/tools/hash-random/RandomSeed.tsx): each input
 * is validated as it changes, its error message is set or cleared, and the
 * value is handed to the page whether or not it is valid.
 */
module RandomSeed {
  import opened Text
  import HashRandomPage

  /** 请输入随机种子 ("please enter a random seed") */
  const SaltRequired: JsString := [0x8BF7, 0x8F93, 0x5165, 0x968F, 0x673A, 0x79CD, 0x5B50]

  /** 抽取数量必须大于0 ("the number to draw must be greater than 0") */
  const CountTooSmall: JsString := [0x62BD, 0x53D6, 0x6570, 0x91CF, 0x5FC5, 0x987B, 0x5927, 0x4E8E, 0x0030]

  /** The salt error for an input: a message exactly when the input is blank. */
  function SaltError(value: JsString): (e: JsString)
    ensures e != [] <==> IsBlank(value)
    ensures e == [] || e == SaltRequired
  {
    TrimEmptyIffBlank(value);
    if Trim(value) == [] then SaltRequired else []
  }

  /** The count error for an input: a message exactly when fewer than one is asked for. */
  function CountError(value: int): (e: JsString)
    ensures e != [] <==> value < 1
    ensures e == [] || e == CountTooSmall
  {
    if value < 1 then CountTooSmall else []
  }

  /** The panel's `errors` state, one message per field; the empty string is no error. */
  class RandomSeed {
    var saltError: JsString
    var countError: JsString

    constructor ()
      ensures saltError == [] && countError == []
    {
      saltError := [];
      countError := [];
    }

    /** `validateSalt(value)` */
    method ValidateSalt(value: JsString, page: HashRandomPage.Page)
      modifies this, page
      ensures saltError == SaltError(value)
      ensures countError == old(countError)
      ensures page.salt == value
      ensures page.count == old(page.count) && page.participants == old(page.participants)
    {
      if Trim(value) == [] {
        saltError := SaltRequired;
      } else {
        saltError := [];
      }
      page.salt := value;
    }

    /** `validateCount(value)` */
    method ValidateCount(value: int, page: HashRandomPage.Page)
      modifies this, page
      ensures countError == CountError(value)
      ensures saltError == old(saltError)
      ensures page.count == value
      ensures page.salt == old(page.salt) && page.participants == old(page.participants)
    {
      if value < 1 {
        countError := CountTooSmall;
      } else {
        countError := [];
      }
      page.count := value;
    }
  }
}
