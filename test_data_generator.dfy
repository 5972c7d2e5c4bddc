/** The synthetic user `generateTestUser` builds for sign-up scenarios: a record
    made from the current time in milliseconds and a random draw, with fixed
    values for every field except the name and the e-mail address. */
module TestDataGenerator {
  import opened Outcomes
  import opened Decimal

  /** The user record; the second group of fields repeats values of the first
      under the names the account API expects. */
  datatype TestUser = TestUser(
    name: string, email: string, password: string, firstName: string, lastName: string,
    company: string, country: string, state: string, city: string, zipcode: string,
    gender: string, day: string, month: string, year: string, address1: string, address2: string,
    mobileNumber: string, newsletter: bool, optin: bool,
    title: string, birthDate: string, birthMonth: string, birthYear: string, address: string, mobile: string)

  /** `Math.floor(random * 1000)` for a draw in [0, 1): an integer from 0 to 999,
      the one whose thousandth part the draw falls into. */
  function RandomComponent(random: real): (n: nat)
    requires 0.0 <= random < 1.0
    ensures n <= 999
    ensures n as real <= random * 1000.0 < n as real + 1.0
  {
    (random * 1000.0).Floor
  }

  const EmailStart := "testuser"
  const EmailDomain := "@example.com"

  /** The address built from a timestamp and a random component: the two printed
      in decimal one after the other, between the fixed start and domain. */
  function EmailFor(timestamp: nat, randomNum: nat): (email: string)
  {
    EmailStart + DecimalString(timestamp) + DecimalString(randomNum) + EmailDomain
  }

  /** The record for a given timestamp and random component. */
  function TestUserFor(timestamp: nat, randomNum: nat): TestUser
  {
    TestUser(
      "Test User " + DecimalString(timestamp), EmailFor(timestamp, randomNum), "Test@12345", "Test", "User",
      "Test Company", "United States", "California", "Los Angeles", "90001",
      "Mr", "15", "6", "1990", "123 Test Street", "Apt 4B", "+1234567890", true, true,
      "Mr", "15", "June", "1990", "123 Test Street", "1234567890")
  }

  /** `generateTestUser`, with `Date.now()` and `Math.random()` as parameters. */
  function GenerateTestUser(timestamp: nat, random: real): (u: TestUser)
    requires 0.0 <= random < 1.0
    ensures u.name == "Test User " + DecimalString(timestamp)
    ensures exists randomNum: nat :: randomNum <= 999 && u.email == EmailFor(timestamp, randomNum)
    ensures u.title == u.gender && u.birthDate == u.day && u.birthYear == u.year && u.address == u.address1
    ensures u.mobileNumber == "+" + u.mobile
  {
    var randomNum := RandomComponent(random);
    assert TestUserFor(timestamp, randomNum).mobileNumber == "+" + TestUserFor(timestamp, randomNum).mobile;
    TestUserFor(timestamp, randomNum)
  }

  /** The fields the e-mail address is split into can be read back: the address
      is its fixed start, the two numbers in decimal, and the domain, in that order. */
  lemma EmailParts(timestamp: nat, randomNum: nat)
    ensures var e := EmailFor(timestamp, randomNum);
      var k := |EmailStart| + |DecimalString(timestamp)|;
      |e| == k + |DecimalString(randomNum)| + |EmailDomain| &&
      e[|EmailStart|..k] == DecimalString(timestamp) &&
      e[k..k + |DecimalString(randomNum)|] == DecimalString(randomNum)
  {
  }

  /** With the same timestamp, different random components give different
      addresses: equal addresses mean equal random components. */
  lemma EmailInjectiveInRandomComponent(timestamp: nat, r1: nat, r2: nat)
    requires EmailFor(timestamp, r1) == EmailFor(timestamp, r2)
    ensures r1 == r2
  {
    EmailParts(timestamp, r1);
    EmailParts(timestamp, r2);
    var k := |EmailStart| + |DecimalString(timestamp)|;
    var e := EmailFor(timestamp, r1);
    assert |DecimalString(r1)| == |DecimalString(r2)|;
    assert DecimalString(r1) == e[k..k + |DecimalString(r1)|] == DecimalString(r2);
    DecimalStringInjective(r1, r2);
  }

  /** Different timestamps with the same number of digits give different
      addresses, whatever the random components: equal addresses of such
      timestamps mean equal timestamps and equal random components. */
  lemma EmailInjectiveForEqualLengths(t1: nat, t2: nat, r1: nat, r2: nat)
    requires |DecimalString(t1)| == |DecimalString(t2)|
    requires EmailFor(t1, r1) == EmailFor(t2, r2)
    ensures t1 == t2 && r1 == r2
  {
    EmailParts(t1, r1);
    EmailParts(t2, r2);
    var e := EmailFor(t1, r1);
    assert DecimalString(t1) == e[|EmailStart|..|EmailStart| + |DecimalString(t1)|] == DecimalString(t2);
    DecimalStringInjective(t1, t2);
    EmailInjectiveInRandomComponent(t1, r1, r2);
  }

  /** Without the equal-length condition addresses can collide: timestamp 1 with
      random component 23 and timestamp 12 with 3 both print the digits "123". */
  lemma EmailsCollideAcrossLengths()
    ensures EmailFor(1, 23) == EmailFor(12, 3)
  {
    var digits := DecimalString(1) + DecimalString(23);
    assert digits == DecimalString(12) + DecimalString(3) by {
      assert DecimalString(1) == "1" && DecimalString(23) == "23";
      assert DecimalString(12) == "12" && DecimalString(3) == "3";
    }
    assert EmailFor(1, 23) == EmailStart + digits + EmailDomain;
    assert EmailFor(12, 3) == EmailStart + (DecimalString(12) + DecimalString(3)) + EmailDomain;
  }

  /** Different timestamps give different names: equal names mean equal timestamps. */
  lemma NameInjective(t1: nat, t2: nat, r1: real, r2: real)
    requires 0.0 <= r1 < 1.0 && 0.0 <= r2 < 1.0
    requires GenerateTestUser(t1, r1).name == GenerateTestUser(t2, r2).name
    ensures t1 == t2
  {
    var prefix := "Test User ";
    var n := GenerateTestUser(t1, r1).name;
    assert DecimalString(t1) == n[|prefix|..] == DecimalString(t2);
    DecimalStringInjective(t1, t2);
  }

  /** Every field other than the name and the e-mail address is a constant: two
      records agree on all of them, whatever their inputs. */
  lemma OnlyNameAndEmailVary(t1: nat, t2: nat, r1: real, r2: real)
    requires 0.0 <= r1 < 1.0 && 0.0 <= r2 < 1.0
    ensures GenerateTestUser(t1, r1).(name := "", email := "") == GenerateTestUser(t2, r2).(name := "", email := "")
  {
  }

  /** The names of the months, January first. */
  const MonthNames := ["January", "February", "March", "April", "May", "June", "July",
                       "August", "September", "October", "November", "December"]

  /** The API month name is the name of the month the UI month number denotes. */
  lemma BirthMonthIsNamedMonth(timestamp: nat, random: real)
    requires 0.0 <= random < 1.0
    ensures var u := GenerateTestUser(timestamp, random);
      ParseInt(u.month).Some? && 1 <= ParseInt(u.month).value <= 12 &&
      u.birthMonth == MonthNames[ParseInt(u.month).value - 1]
  {
    assert ParseInt("6") == Some(6) by {
      assert DecimalString(6) == "6";
      ParseIntOfDecimalString(6);
    }
  }
}
