/**
 * The rules of the direct-chat screen: the country picker with its search
 * filter, the phone and message validation, the digit-only phone field and
 * the `wa.me` link the send button opens.
 */
module DirectChatScreen {
  import opened Wrappers
  import opened Text
  import Lists

  datatype Country = Country(name: string, code: string, dialingCode: string, flag: string)

  /** The picker's list, in the order the screen shows it. */
  const Countries: seq<Country> := [
    Country("India", "IN", "+91", "🇮🇳"),
    Country("Pakistan", "PK", "+92", "🇵🇰"),
    Country("Bangladesh", "BD", "+880", "🇧🇩"),
    Country("Nepal", "NP", "+977", "🇳🇵"),
    Country("Bhutan", "BT", "+975", "🇧🇹"),
    Country("Sri Lanka", "LK", "+94", "🇱🇰"),
    Country("Afghanistan", "AF", "+93", "🇦🇫"),
    Country("Myanmar", "MM", "+95", "🇲🇲"),
    Country("China", "CN", "+86", "🇨🇳"),
    Country("Japan", "JP", "+81", "🇯🇵"),
    Country("South Korea", "KR", "+82", "🇰🇷"),
    Country("Thailand", "TH", "+66", "🇹🇭"),
    Country("Malaysia", "MY", "+60", "🇲🇾"),
    Country("Singapore", "SG", "+65", "🇸🇬"),
    Country("Indonesia", "ID", "+62", "🇮🇩"),
    Country("Philippines", "PH", "+63", "🇵🇭"),
    Country("Vietnam", "VN", "+84", "🇻🇳"),
    Country("Cambodia", "KH", "+855", "🇰🇭"),
    Country("United States", "US", "+1", "🇺🇸"),
    Country("Canada", "CA", "+1", "🇨🇦"),
    Country("United Kingdom", "GB", "+44", "🇬🇧"),
    Country("Germany", "DE", "+49", "🇩🇪"),
    Country("France", "FR", "+33", "🇫🇷"),
    Country("Australia", "AU", "+61", "🇦🇺"),
    Country("Italy", "IT", "+39", "🇮🇹"),
    Country("Spain", "ES", "+34", "🇪🇸"),
    Country("Netherlands", "NL", "+31", "🇳🇱"),
    Country("UAE", "AE", "+971", "🇦🇪"),
    Country("Saudi Arabia", "SA", "+966", "🇸🇦"),
    Country("Qatar", "QA", "+974", "🇶🇦"),
    Country("Kuwait", "KW", "+965", "🇰🇼"),
    Country("Bahrain", "BH", "+973", "🇧🇭"),
    Country("Oman", "OM", "+968", "🇴🇲"),
    Country("Turkey", "TR", "+90", "🇹🇷"),
    Country("Iran", "IR", "+98", "🇮🇷"),
    Country("Russia", "RU", "+7", "🇷🇺"),
    Country("Brazil", "BR", "+55", "🇧🇷"),
    Country("Mexico", "MX", "+52", "🇲🇽"),
    Country("South Africa", "ZA", "+27", "🇿🇦"),
    Country("Egypt", "EG", "+20", "🇪🇬"),
    Country("Nigeria", "NG", "+234", "🇳🇬"),
    Country("Kenya", "KE", "+254", "🇰🇪"),
    Country("Ethiopia", "ET", "+251", "🇪🇹")
  ]

  /** A country matches a query when its name, dialing code or code contains it, ignoring case. */
  predicate Matches(query: string, c: Country) {
    ContainsIgnoreCase(c.name, query) || ContainsIgnoreCase(c.dialingCode, query) ||
    ContainsIgnoreCase(c.code, query)
  }

  /** The search filter over a country list. */
  function FilterCountries(countries: seq<Country>, query: string): seq<Country> {
    if IsBlank(query) then countries else Lists.Filter(countries, (c: Country) => Matches(query, c))
  }

  /** `filteredCountries` */
  function FilteredCountries(query: string): seq<Country> {
    FilterCountries(Countries, query)
  }

  /**
   * A blank query keeps the whole list; any other query keeps, in order,
   * exactly the countries that match it.
   */
  lemma FilterCountriesProperties(countries: seq<Country>, query: string)
    ensures IsBlank(query) ==> FilterCountries(countries, query) == countries
    ensures Lists.Subsequence(FilterCountries(countries, query), countries)
    ensures !IsBlank(query) ==> forall c :: c in FilterCountries(countries, query) <==> c in countries && Matches(query, c)
  {
    if !IsBlank(query) {
      Lists.FilterIsSubsequence(countries, (c: Country) => Matches(query, c));
    } else {
      Lists.FilterIsSubsequence(countries, (c: Country) => true);
      Lists.FilterKeepsAll(countries, (c: Country) => true);
    }
  }

  /** `isPhoneNumberValid` */
  predicate IsPhoneNumberValid(phone: string) {
    !IsBlank(phone) && |phone| >= 7
  }

  /** `isMessageValid` */
  predicate IsMessageValid(message: string) {
    !IsBlank(message)
  }

  /** `isSendButtonEnabled` */
  predicate IsSendEnabled(phone: string, message: string) {
    IsPhoneNumberValid(phone) && IsMessageValid(message)
  }

  /**
   * The link the send button opens, given the platform's URI encoder; none
   * when the button is disabled.
   */
  function SendUrl(country: Country, phone: string, message: string, encode: string -> string): (r: Option<string>)
    ensures r.Some? <==> IsSendEnabled(phone, message)
    ensures r.Some? ==> StartsWith(r.value, "https://wa.me/")
  {
    if IsSendEnabled(phone, message) then
      var url := "https://wa.me/" + country.dialingCode + phone + "?text=" + encode(message);
      assert url[..|"https://wa.me/"|] == "https://wa.me/";
      Some(url)
    else None
  }

  /**
   * The link names the full number, the dialing code followed by the phone
   * digits, and then the encoded message after "?text=".
   */
  lemma SendUrlShape(country: Country, phone: string, message: string, encode: string -> string)
    requires IsSendEnabled(phone, message)
    ensures var url := SendUrl(country, phone, message, encode).value;
      var n := |"https://wa.me/"| + |country.dialingCode| + |phone|;
      && url[|"https://wa.me/"|..n] == country.dialingCode + phone
      && url[n..n + 6] == "?text="
      && url[n + 6..] == encode(message)
  {
  }

  /** For a digits-only phone field, blank means empty, so the phone is valid iff it has at least 7 digits. */
  lemma DigitPhoneValidity(phone: string)
    requires forall i :: 0 <= i < |phone| ==> IsDigit(phone[i])
    ensures IsPhoneNumberValid(phone) <==> |phone| >= 7
  {
    DigitsBlankIffEmpty(phone);
  }

  /** The screen's remembered state. */
  class DirectChatState {
    var selectedCountry: Country
    var isDropdownExpanded: bool
    var searchQuery: string
    var phoneNumber: string
    var message: string

    /** The phone field only ever holds digits. */
    ghost predicate Valid()
      reads this
    {
      forall i :: 0 <= i < |phoneNumber| ==> IsDigit(phoneNumber[i])
    }

    /** India, the first entry, is selected; everything else starts empty or collapsed. */
    constructor()
      ensures Valid()
      ensures selectedCountry == Countries[0] && selectedCountry.name == "India"
      ensures !isDropdownExpanded && searchQuery == "" && phoneNumber == "" && message == ""
    {
      selectedCountry := Countries[0];
      isDropdownExpanded := false;
      searchQuery := "";
      phoneNumber := "";
      message := "";
    }

    /** Clicking the country card flips the dropdown. */
    method ToggleDropdown()
      modifies this
      ensures isDropdownExpanded == !old(isDropdownExpanded)
      ensures selectedCountry == old(selectedCountry) && searchQuery == old(searchQuery)
      ensures phoneNumber == old(phoneNumber) && message == old(message)
    {
      isDropdownExpanded := !isDropdownExpanded;
    }

    /** Dismissing the dropdown collapses it and clears the query. */
    method DismissDropdown()
      modifies this
      ensures !isDropdownExpanded && searchQuery == ""
      ensures selectedCountry == old(selectedCountry)
      ensures phoneNumber == old(phoneNumber) && message == old(message)
    {
      isDropdownExpanded := false;
      searchQuery := "";
    }

    method ChangeSearchQuery(query: string)
      modifies this
      ensures searchQuery == query
      ensures isDropdownExpanded == old(isDropdownExpanded) && selectedCountry == old(selectedCountry)
      ensures phoneNumber == old(phoneNumber) && message == old(message)
    {
      searchQuery := query;
    }

    /** Picking a country selects it, collapses the dropdown and clears the query. */
    method SelectCountry(country: Country)
      modifies this
      ensures selectedCountry == country && !isDropdownExpanded && searchQuery == ""
      ensures phoneNumber == old(phoneNumber) && message == old(message)
    {
      selectedCountry := country;
      isDropdownExpanded := false;
      searchQuery := "";
    }

    /** Typing in the phone field keeps only the digits typed. */
    method ChangePhoneNumber(input: string)
      modifies this
      ensures Valid()
      ensures phoneNumber == DigitsOf(input)
      ensures selectedCountry == old(selectedCountry) && isDropdownExpanded == old(isDropdownExpanded)
      ensures searchQuery == old(searchQuery) && message == old(message)
    {
      phoneNumber := DigitsOf(input);
    }

    method ChangeMessage(text: string)
      modifies this
      ensures message == text
      ensures selectedCountry == old(selectedCountry) && isDropdownExpanded == old(isDropdownExpanded)
      ensures searchQuery == old(searchQuery) && phoneNumber == old(phoneNumber)
    {
      message := text;
    }

    /** The send button's action: the link to open, if the button is enabled. */
    method Send(encode: string -> string) returns (r: Option<string>)
      requires Valid()
      ensures r == SendUrl(selectedCountry, phoneNumber, message, encode)
      ensures r.Some? <==> |phoneNumber| >= 7 && IsMessageValid(message)
    {
      DigitPhoneValidity(phoneNumber);
      if IsSendEnabled(phoneNumber, message) {
        var fullNumber := selectedCountry.dialingCode + phoneNumber;
        assert "https://wa.me/" + fullNumber == "https://wa.me/" + selectedCountry.dialingCode + phoneNumber;
        r := Some("https://wa.me/" + fullNumber + "?text=" + encode(message));
      } else {
        r := None;
      }
    }
  }
}
