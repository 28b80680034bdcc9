/** `TimerServiceFactoryImpl.getSystemProperty` and the three thread-pool
    settings `createTimerService` resolves with it. The JVM's system
    properties are an explicit table instead of a global lookup. */
module SystemProperties {
  import opened Wrappers
  import opened JavaLang

  /** `System.getProperty(name)`: `None` where Java returns null. */
  function GetProperty(props: map<string, string>, name: string): Option<string> {
    if name in props then Some(props[name]) else None
  }

  /** Which branch `getSystemProperty` takes. `FromProperty` is the branch
      that logs at info level; the other two log a warning and keep the
      default (`Unparsable` is the `catch` of a `NumberFormatException`). */
  datatype Resolution = FromProperty(value: int32) | NotSet | Unparsable

  function Resolve(prop: Option<string>): (r: Resolution)
    ensures r.NotSet? <==> prop.None? || IsBlank(prop.value)
    ensures r.FromProperty? <==> prop.Some? && IsJavaInt(prop.value)
    ensures r.FromProperty? ==> r.value as int == DecimalValue(prop.value)
  {
    match prop
    case None => NotSet
    case Some(p) =>
      DecimalNotPadded(p);
      if |Trim(p)| > 0 then
        // the untrimmed string is parsed, not the trimmed one
        match ParseInt(p)
        case Some(v) => FromProperty(v)
        case None => Unparsable
      else
        NotSet
  }

  /** Decimal notation neither starts nor ends with a trimmable character:
      it starts with a sign or a digit and ends with a digit. */
  lemma DecimalNotPadded(p: string)
    ensures IsDecimal(p) ==> p != [] && !IsTrimmable(p[0]) && !IsTrimmable(p[|p| - 1])
  {
    if IsDecimal(p) {
      var u := Unsigned(p);
      assert u[|u| - 1] == p[|p| - 1];
      var i := if p[0] == '-' || p[0] == '+' then 1 else 0;
      assert p[i] == u[0];
    }
  }

  /** `getSystemProperty(property, defaultValue)`: the property's value when
      it is an `int` in decimal notation, and `defaultValue` otherwise. It
      never throws. */
  function GetSystemProperty(props: map<string, string>, property: string, defaultValue: int32): (r: int32)
    ensures property !in props ==> r == defaultValue
    ensures property in props && IsBlank(props[property]) ==> r == defaultValue
    ensures property in props && IsJavaInt(props[property]) ==> r as int == DecimalValue(props[property])
    ensures property in props && !IsJavaInt(props[property]) ==> r == defaultValue
  {
    match Resolve(GetProperty(props, property))
    case FromProperty(v) => v
    case NotSet => defaultValue
    case Unparsable => defaultValue
  }

  /** A value with surrounding white space is not trimmed before parsing,
      so it falls back to the default even when the rest is a number. */
  lemma PaddedValueFallsBack(props: map<string, string>, property: string, defaultValue: int32)
    requires property in props && props[property] != []
    requires IsTrimmable(props[property][0]) || IsTrimmable(props[property][|props[property]| - 1])
    ensures GetSystemProperty(props, property, defaultValue) == defaultValue
  {
    DecimalNotPadded(props[property]);
  }

  /** Whatever `int` a property holds in the form `Integer.toString` prints,
      that `int` is what the factory uses. */
  lemma CanonicalValueReadBack(props: map<string, string>, property: string, defaultValue: int32, v: int32)
    requires property in props && props[property] == IntToString(v)
    ensures GetSystemProperty(props, property, defaultValue) == v
  {
    ParseIntToString(v);
  }

  /** Sample values of a property read with default 20. */
  lemma SampleValues(props: map<string, string>, property: string)
    ensures property in props && props[property] == "7" ==> GetSystemProperty(props, property, 20) == 7
    ensures property in props && props[property] == "-7" ==> GetSystemProperty(props, property, 20) == -7
    ensures property in props && props[property] == "abc" ==> GetSystemProperty(props, property, 20) == 20
    ensures property in props && props[property] == " 7 " ==> GetSystemProperty(props, property, 20) == 20
    ensures property in props && props[property] == "+" ==> GetSystemProperty(props, property, 20) == 20
  {
    assert IsJavaInt("7") && DecimalValue("7") == 7 by {
      assert Unsigned("7") == "7";
      assert "7"[..0] == [];
    }
    assert IsJavaInt("-7") && DecimalValue("-7") == -7 by {
      assert Unsigned("-7") == "7";
      assert "7"[..0] == [];
    }
    assert !IsDigit('a') && Unsigned("abc") == "abc";
    assert !IsJavaInt("+") by {
      assert Unsigned("+") == [];
    }
    DecimalNotPadded(" 7 ");
  }

  /** The digits of 2^31. */
  lemma TwoPow31Digits()
    ensures AllDigits("2147483648") && DigitsValue("2147483648") == 0x8000_0000
  {
    assert DigitsValue("2") == 2 by { assert "2"[..0] == ""; }
    assert DigitsValue("21") == 21 by { assert "21"[..1] == "2"; }
    assert DigitsValue("214") == 214 by { assert "214"[..2] == "21"; }
    assert DigitsValue("2147") == 2147 by { assert "2147"[..3] == "214"; }
    assert DigitsValue("21474") == 21474 by { assert "21474"[..4] == "2147"; }
    assert DigitsValue("214748") == 214748 by { assert "214748"[..5] == "21474"; }
    assert DigitsValue("2147483") == 2147483 by { assert "2147483"[..6] == "214748"; }
    assert DigitsValue("21474836") == 21474836 by { assert "21474836"[..7] == "2147483"; }
    assert DigitsValue("214748364") == 214748364 by { assert "214748364"[..8] == "21474836"; }
    assert DigitsValue("2147483648") == 2147483648 by { assert "2147483648"[..9] == "214748364"; }
  }

  /** The bounds of `int`: 2^31 is one past the largest value and falls
      back to the default, while -2^31 is the smallest value and is read. */
  lemma SampleBounds(props: map<string, string>, property: string)
    ensures property in props && props[property] == "2147483648" ==> GetSystemProperty(props, property, 20) == 20
    ensures property in props && props[property] == "-2147483648" ==> GetSystemProperty(props, property, 20) as int == IntMin
  {
    TwoPow31Bounds();
  }

  /** 2^31 in decimal is not an `int`; with a minus sign it is the smallest. */
  lemma TwoPow31Bounds()
    ensures !IsJavaInt("2147483648")
    ensures IsJavaInt("-2147483648") && DecimalValue("-2147483648") == IntMin
  {
    var digits, negated := "2147483648", "-2147483648";
    TwoPow31Digits();
    assert Unsigned(digits) == digits;
    assert Unsigned(negated) == digits by {
      assert negated[0] == '-' && negated[1..] == digits;
    }
  }

  // ---------------------------------------------------------------------
  // The thread-pool settings read by createTimerService

  const CoreThreadPoolSizeProperty: string := "jboss.timerservice.coreThreadPoolSize"
  const MaxThreadPoolSizeProperty: string := "jboss.timerservice.maxThreadPoolSize"
  const KeepAliveTimeSecProperty: string := "jboss.timerservice.keepAliveTimeSec"

  const DefaultCoreThreadPoolSize: int32 := 20
  const DefaultMaxThreadPoolSize: int32 := 50
  const DefaultKeepAliveTimeSec: int32 := 300

  /** The three numbers the scheduled executor is configured with. */
  datatype PoolSettings = PoolSettings(coreThreadPool: int32, maxThreadPool: int32, keepAliveTimeSec: int32)

  /** The setting a property stands for: its value when it holds an `int`
      in decimal notation, `defaultValue` otherwise. */
  ghost function IntPropertyOr(props: map<string, string>, name: string, defaultValue: int): int {
    if name in props && IsJavaInt(props[name]) then DecimalValue(props[name]) else defaultValue
  }

  /** The executor settings `createTimerService` reads, each from its own
      property and falling back to 20 core threads, 50 threads at most and
      a keep-alive of 300 seconds. */
  function ResolvePoolSettings(props: map<string, string>): (r: PoolSettings)
    ensures r.coreThreadPool as int == IntPropertyOr(props, CoreThreadPoolSizeProperty, 20)
    ensures r.maxThreadPool as int == IntPropertyOr(props, MaxThreadPoolSizeProperty, 50)
    ensures r.keepAliveTimeSec as int == IntPropertyOr(props, KeepAliveTimeSecProperty, 300)
  {
    PoolSettings(
      GetSystemProperty(props, CoreThreadPoolSizeProperty, DefaultCoreThreadPoolSize),
      GetSystemProperty(props, MaxThreadPoolSizeProperty, DefaultMaxThreadPoolSize),
      GetSystemProperty(props, KeepAliveTimeSecProperty, DefaultKeepAliveTimeSec))
  }

  /** With none of the three properties set, the pool is 20 / 50 / 300 s. */
  lemma DefaultPoolSettings(props: map<string, string>)
    requires CoreThreadPoolSizeProperty !in props
    requires MaxThreadPoolSizeProperty !in props
    requires KeepAliveTimeSecProperty !in props
    ensures ResolvePoolSettings(props) == PoolSettings(20, 50, 300)
  {
  }

  /** Each setting depends on its own property and on nothing else. */
  lemma PoolSettingsIndependent(props: map<string, string>, other: map<string, string>)
    ensures GetProperty(props, CoreThreadPoolSizeProperty) == GetProperty(other, CoreThreadPoolSizeProperty)
      ==> ResolvePoolSettings(props).coreThreadPool == ResolvePoolSettings(other).coreThreadPool
    ensures GetProperty(props, MaxThreadPoolSizeProperty) == GetProperty(other, MaxThreadPoolSizeProperty)
      ==> ResolvePoolSettings(props).maxThreadPool == ResolvePoolSettings(other).maxThreadPool
    ensures GetProperty(props, KeepAliveTimeSecProperty) == GetProperty(other, KeepAliveTimeSecProperty)
      ==> ResolvePoolSettings(props).keepAliveTimeSec == ResolvePoolSettings(other).keepAliveTimeSec
  {
  }

  /** The resolver itself puts no relation between the core and the maximum
      size: a core size set above the default maximum is taken as it is. */
  lemma CoreMayExceedMax()
    ensures exists props :: ResolvePoolSettings(props).coreThreadPool > ResolvePoolSettings(props).maxThreadPool
  {
    var props := map[CoreThreadPoolSizeProperty := IntToString(60)];
    CanonicalValueReadBack(props, CoreThreadPoolSizeProperty, DefaultCoreThreadPoolSize, 60);
    assert MaxThreadPoolSizeProperty !in props;
    assert ResolvePoolSettings(props).coreThreadPool > ResolvePoolSettings(props).maxThreadPool;
  }
}
